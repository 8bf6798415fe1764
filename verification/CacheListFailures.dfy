/** Runs of the state cache in which its list of recently used keys goes wrong. */
module CacheListFailures {
  import opened Base
  import opened RecentKeys
  import opened StateChanges
  import opened CacheViews
  import opened StateCache
  import opened CacheRuns
  import opened CacheFailures

  function Upsert(address: Address): AccountChange {
    AccountChange(UPSERT, address, 0, [1], [])
  }

  /** The changes of one block that set each of the addresses in turn. */
  function Upserts(addresses: seq<Address>): seq<AccountChange> {
    if addresses == [] then [] else
      Upserts(addresses[..|addresses| - 1]) + [Upsert(addresses[|addresses| - 1])]
  }

  function EntriesFor(keys: seq<Bytes>): (entries: seq<KeyValue>)
    ensures |entries| == |keys| && forall i | 0 <= i < |keys| :: entries[i] == Entry(keys[i], [1])
  {
    seq(|keys|, i requires 0 <= i < |keys| => Entry(keys[i], [1]))
  }

  lemma EntriesForOneMore(keys: seq<Bytes>, key: Bytes)
    ensures EntriesFor(keys + [key]) == EntriesFor(keys) + [Entry(key, [1])]
  {
  }

  lemma {:induction false} EntriesOfUpserts(addresses: seq<Address>, reading: Reading)
    ensures BlockEntries(Upserts(addresses), reading) == EntriesFor(addresses)
  {
    if addresses != [] {
      var rest, last := addresses[..|addresses| - 1], addresses[|addresses| - 1];
      EntriesOfUpserts(rest, reading);
      BlockEntriesOfOneMore(Upserts(rest), Upsert(last), reading);
      EntriesForOneMore(rest, last);
      assert addresses == rest + [last];
    }
  }

  lemma EntriesOfBlock(addresses: seq<Address>, reading: Reading)
    ensures BatchEntries([Upserts(addresses)], reading) == EntriesFor(addresses)
  {
    var batch := [Upserts(addresses)];
    assert batch[..0] == [];
    EntriesOfUpserts(addresses, reading);
  }

  lemma OutOfStepFails<K, V>(stray: nat -> K, a: K, b: K, c: K, d: K, v: V)
    requires a != b && a != c && a != d && b != c && b != d && c != d
    ensures PutAll(2, Recent(map[a := v], [b, a], Quiet(stray)), [Entry(c, v), Entry(d, v)]).trace.failed
  {
    var r, e, f := Recent(map[a := v], [b, a], Quiet(stray)), Entry(c, v), Entry(d, v);
    assert Listed(r, c) == [c, b, a];
    var mid := Put(2, r, e);
    assert mid == Recent(map[c := v], [c, b], Quiet(stray));
    PutAllOfSingle(2, r, e);
    assert [e, f][..1] == [e];
    assert Listed(mid, d) == [d, c, b];
  }

  lemma FirstKey(stray: Strays, config: Config, view: ViewId, a: Address)
    requires config.maxViews != 0 && config.maxStateKeys != 0
    ensures Applied(config, NewCache(stray), view, [[Upsert(a)]]) == OneSlot(stray, view, a, [1])
    ensures !Loses(config.maxViews, NewCache(stray).roots.Keys, 0, view)
  {
    var e: KeyValue := Entry(a, [1]);
    EntriesOfOne(Upsert(a), ReadingOf(config.withStorage));
    assert ChangeEntries(Upsert(a), ReadingOf(config.withStorage)) == [e];
    assert Start(NewCache(stray), view) == Recent(map[], [], Quiet(stray));
    PutFirst(stray, config.maxStateKeys, e);
    assert NewCache(stray).roots.Keys + {view} == {view};
    AppliedWithRoom(config, NewCache(stray), view, [[Upsert(a)]], Recent(map[e.key := [1]], [e.key], Quiet(stray)));
  }

  function TwoKeys(stray: Strays, view: ViewId, a: Address, b: Address): Snapshot
    requires view < TWO_TO_64 - 1
  {
    Snapshot(OneSlot(stray, view, a, [1]).roots[view + 1 := Root(1, map[a := [1], b := [1]], true, true)],
             2, view + 1, [b, a], Quiet(stray))
  }

  lemma UpsertFills(config: Config, r: Recent<Bytes, Bytes>, b: Address)
    ensures Filled(config, r, [[Upsert(b)]]) == PutAll(config.maxStateKeys, r, [Entry(b, [1])])
  {
    EntriesOfOne(Upsert(b), ReadingOf(config.withStorage));
  }

  lemma SecondKeyFills(stray: Strays, config: Config, view: ViewId, a: Address, b: Address)
    requires config.maxStateKeys >= 2 && view < TWO_TO_64 - 1 && a != b
    ensures Filled(config, Start(OneSlot(stray, view, a, [1]), view + 1), [[Upsert(b)]])
         == Recent(map[a := [1], b := [1]], [b, a], Quiet(stray))
  {
    var key: Bytes, e: KeyValue := a, Entry(b, [1]);
    var r := Recent(map[key := [1]], [key], Quiet(stray));
    UpsertFills(config, r, b);
    assert Wrapped(view + 1 - 1) == view;
    assert Start(OneSlot(stray, view, a, [1]), view + 1) == r;
    PutSecond<Bytes, Bytes>(stray, config.maxStateKeys, key, [1], e);
  }

  lemma SecondKey(stray: Strays, config: Config, view: ViewId, a: Address, b: Address)
    requires config.maxViews >= 2 && config.maxStateKeys >= 2 && view < TWO_TO_64 - 1 && a != b
    ensures Applied(config, OneSlot(stray, view, a, [1]), view + 1, [[Upsert(b)]]) == TwoKeys(stray, view, a, b)
    ensures !Loses(config.maxViews, OneSlot(stray, view, a, [1]).roots.Keys, view, view + 1)
  {
    var s, batch := OneSlot(stray, view, a, [1]), [[Upsert(b)]];
    SecondKeyFills(stray, config, view, a, b);
    var r := Filled(config, Start(s, view + 1), batch);
    assert s.roots.Keys + {view + 1} == {view, view + 1};
    AppliedWithRoom(config, s, view + 1, batch, r);
    assert RootOf(s, view + 1) == Root(1, map[], false, false) && s.created == 1;
  }

  lemma ThirdBatchFails(stray: Strays, view: ViewId, a: Address, b: Address, c: Address, d: Address)
    requires view < TWO_TO_64 - 1 && a != b && a != c && a != d && b != c && b != d && c != d
    ensures Filled(Config(5, true, 2), Start(TwoKeys(stray, view, a, b), view + 1), [Upserts([c, d])]).trace.failed
    ensures !Loses(5, TwoKeys(stray, view, a, b).roots.Keys, view + 1, view + 1)
  {
    var s := TwoKeys(stray, view, a, b);
    assert Wrapped(view + 1 - 1) == view;
    assert Start(s, view + 1) == Recent(map[a := [1]], [b, a], Quiet(stray));
    EntriesOfBlock([c, d], WithStorage);
    assert EntriesFor([c, d]) == [Entry(c, [1]), Entry(d, [1])];
    OutOfStepFails<Bytes, Bytes>(stray, a, b, c, d, [1]);
    assert s.roots.Keys + {view + 1} == {view, view + 1};
  }

  /** The batch of a view delivered again, with two other keys: the root restarts from the preceding view,
      whose keys are not those of the eviction list, and the assertion on erased keys fails. */
  method RepeatedBatch(stray: Strays, view: ViewId, a: Address, b: Address, c: Address, d: Address)
    returns (assertionFailed: bool, dangling: bool)
    requires view < TWO_TO_64 - 1 && a != b && a != c && a != d && b != c && b != d && c != d
    ensures assertionFailed && !dangling
  {
    var cache := new CoherentStateCache(Config(5, true, 2), stray);
    FirstKey(stray, cache.config, view, a);
    cache.OnNewBlock(view, [[Upsert(a)]]);
    SecondKey(stray, cache.config, view, a, b);
    cache.OnNewBlock(view + 1, [[Upsert(b)]]);
    ThirdBatchFails(stray, view, a, b, c, d);
    cache.OnNewBlock(view + 1, [Upserts([c, d])]);
    return cache.assertionFailed, cache.danglingWrite;
  }

  /** Two views that no batch connects, of which the older holds `cache`. */
  function TwoViews(stray: Strays, view: ViewId, cache: map<Bytes, Bytes>): Snapshot
    requires view < TWO_TO_64 - 2
  {
    Snapshot(map[view := Root(0, cache, true, true)][view + 2 := Root(1, map[], true, true)],
             2, view + 2, [], Quiet(stray))
  }

  lemma SecondViewStart(stray: Strays, config: Config, view: ViewId)
    requires view < TWO_TO_64 - 2
    ensures Filled(config, Start(OneView(stray, view), view + 2), NOTHING) == Recent(map[], [], Quiet(stray))
  {
    NothingSaysNothing(ReadingOf(config.withStorage));
    assert Wrapped(view + 2 - 1) == view + 1;
    assert Inherited(OneView(stray, view).roots, view + 2) == map[];
  }

  lemma SecondView(stray: Strays, config: Config, view: ViewId)
    requires config.maxViews >= 2 && view < TWO_TO_64 - 2
    ensures Applied(config, OneView(stray, view), view + 2, NOTHING) == TwoViews(stray, view, map[])
    ensures !Loses(config.maxViews, OneView(stray, view).roots.Keys, view, view + 2)
  {
    SecondViewStart(stray, config, view);
    assert OneView(stray, view).roots.Keys + {view + 2} == {view, view + 2};
    AppliedWithRoom(config, OneView(stray, view), view + 2, NOTHING, Recent(map[], [], Quiet(stray)));
  }

  lemma OlderViewStores(stray: Strays, limit: nat, view: ViewId, cache: map<Bytes, Bytes>, e: KeyValue)
    requires view < TWO_TO_64 - 2
    ensures Stored(limit, TwoViews(stray, view, cache), view, e) == TwoViews(stray, view, cache[e.key := e.value])
  {
  }

  lemma OlderViewAgain(stray: Strays, config: Config, view: ViewId, cache: map<Bytes, Bytes>)
    requires config.maxViews >= 2 && view < TWO_TO_64 - 2
    ensures Filled(config, Start(TwoViews(stray, view, cache), view), NOTHING).cache == cache
    ensures !Loses(config.maxViews, TwoViews(stray, view, cache).roots.Keys, view + 2, view)
  {
    var s := TwoViews(stray, view, cache);
    NothingSaysNothing(ReadingOf(config.withStorage));
    assert Wrapped(view - 1) != view && Wrapped(view - 1) != view + 2;
    assert s.roots.Keys + {view} == {view, view + 2};
  }

  method MakeTwoViews(stray: Strays, config: Config, view: ViewId) returns (cache: CoherentStateCache)
    requires config.maxViews >= 2 && view < TWO_TO_64 - 2
    ensures fresh(cache) && cache.config == config
    ensures !cache.danglingWrite && cache.State() == TwoViews(stray, view, map[])
  {
    cache := new CoherentStateCache(config, stray);
    FirstBatch(stray, config, view);
    cache.OnNewBlock(view, NOTHING);
    SecondView(stray, config, view);
    cache.OnNewBlock(view + 2, NOTHING);
  }

  /** A read of the older view that misses. */
  method ReadOlderView(stray: Strays, cache: CoherentStateCache, view: ViewId, e: KeyValue, ghost m: map<Bytes, Bytes>)
    requires view < TWO_TO_64 - 2 && !cache.danglingWrite && cache.State() == TwoViews(stray, view, m) && e.key !in m
    modifies cache
    ensures !cache.danglingWrite && cache.State() == TwoViews(stray, view, m[e.key := e.value])
  {
    var found := cache.Find(view, e.key);
    OlderViewStores(stray, cache.config.maxStateKeys, view, m, e);
    cache.Fill(found.root, e.key, e.value);
  }

  /** The batch of an older view delivered again, after reads of that view beyond the limit: the view becomes
      the latest one again and has more keys than it may. */
  method OverfullView(stray: Strays, view: ViewId, a: Address, b: Address)
    returns (config: Config, latestKeys: nat, dangling: bool)
    requires view < TWO_TO_64 - 2 && a != b
    ensures latestKeys > config.maxStateKeys && !dangling
  {
    config := Config(5, true, 1);
    var cache := MakeTwoViews(stray, config, view);
    ReadOlderView(stray, cache, view, Entry(a, [1]), map[]);
    ReadOlderView(stray, cache, view, Entry(b, [1]), map[][a := [1]]);
    ghost var keys: map<Bytes, Bytes> := map[][a := [1]][b := [1]];
    OlderViewAgain(stray, config, view, keys);
    cache.OnNewBlock(view, NOTHING);
    assert keys.Keys == {a, b} && |keys| == |keys.Keys|;
    return config, |cache.roots[view].cache|, cache.danglingWrite;
  }

  // ---------------------------------------------------------------- a key read through an erased entry

  /** A key used again, for whose erased entry another key is read, stays in the list twice and that one is lost
      from it; two new keys later the assertion fails. */
  lemma MisreadFails<K, V>(stray: nat -> K, a: K, b: K, c: K, d: K, v: V)
    requires a != b && a != c && a != d && b != c && b != d && c != d && stray(0) == a
    ensures
      var entries := [Entry(a, v), Entry(b, v), Entry(b, v), Entry(c, v), Entry(d, v)];
      PutAll(2, Recent(map[], [], Quiet(stray)), entries).trace.failed
  {
    var trace := Quiet(stray).(peeks := 1, misread := true);
    var ea, eb, ec, ed := Entry(a, v), Entry(b, v), Entry(c, v), Entry(d, v);
    var r0, r1 := Recent(map[], [], Quiet(stray)), Recent(map[a := v], [a], Quiet(stray));
    var r2 := Recent(map[a := v, b := v], [b, a], Quiet(stray));
    assert [ea] + [eb, eb, ec, ed] == [ea, eb, eb, ec, ed] && [eb] + [eb, ec, ed] == [eb, eb, ec, ed];
    PutAllOfPush(2, r0, ea, [eb, eb, ec, ed]);
    assert Put(2, r0, ea) == r1;
    PutAllOfPush(2, r1, eb, [eb, ec, ed]);
    assert Put(2, r1, eb) == r2;
    MisreadThenFails(stray, trace, a, b, c, d, v);
  }

  lemma MisreadThenFails<K, V>(stray: nat -> K, trace: Trace<K>, a: K, b: K, c: K, d: K, v: V)
    requires a != b && a != c && a != d && b != c && b != d && c != d && stray(0) == a
    requires trace == Quiet(stray).(peeks := 1, misread := true)
    ensures
      var r := Recent(map[a := v, b := v], [b, a], Quiet(stray));
      PutAll(2, r, [Entry(b, v), Entry(c, v), Entry(d, v)]).trace.failed
  {
    var eb, ec, ed := Entry(b, v), Entry(c, v), Entry(d, v);
    var r2 := Recent(map[a := v, b := v], [b, a], Quiet(stray));
    var r3, r4 := Recent(map[a := v, b := v], [b, b], trace), Recent(map[a := v, c := v], [c, b], trace);
    assert [eb] + [ec, ed] == [eb, ec, ed] && [ec] + [ed] == [ec, ed];
    PutAllOfPush(2, r2, eb, [ec, ed]);
    PutsMisread(stray, trace, a, b, v);
    PutAllOfPush(2, r3, ec, [ed]);
    PutsThird(trace, a, b, c, v);
    PutAllOfSingle(2, r4, ed);
    PutFailsIff(2, r4, ed);
    assert Listed(r4, d)[1..] == [c, b];
  }

  lemma PutsMisread<K, V>(stray: nat -> K, trace: Trace<K>, a: K, b: K, v: V)
    requires a != b && stray(0) == a && trace == Quiet(stray).(peeks := 1, misread := true)
    ensures Put(2, Recent(map[a := v, b := v], [b, a], Quiet(stray)), Entry(b, v))
         == Recent(map[a := v, b := v], [b, b], trace)
  {
    var r := Recent(map[a := v, b := v], [b, a], Quiet(stray));
    RemoveOfPush(b, [a], a);
    RemoveOfPush(a, [], a);
    assert [b] + [a] == [b, a] && [a] + [] == [a];
    assert Remove([b, a], a) == [b];
    assert Listed(r, b) == [b, b];
    assert r.cache[b := v] == r.cache;
  }

  lemma PutsThird<K, V>(trace: Trace<K>, a: K, b: K, c: K, v: V)
    requires a != b && a != c && b != c
    ensures Put(2, Recent(map[a := v, b := v], [b, b], trace), Entry(c, v))
         == Recent(map[a := v, c := v], [c, b], trace)
  {
    var r := Recent(map[a := v, b := v], [b, b], trace);
    assert Listed(r, c) == [c, b, b];
    assert r.cache[c := v] - {b} == map[a := v, c := v];
  }

  lemma PutAllOfPush<K, V>(limit: nat, r: Recent<K, V>, e: Entry<K, V>, rest: seq<Entry<K, V>>)
    ensures PutAll(limit, r, [e] + rest) == PutAll(limit, Put(limit, r, e), rest)
  {
    PutAllOfConcatenation(limit, r, [e], rest);
    PutAllOfSingle(limit, r, e);
  }

  lemma MisreadBatchFails(stray: Strays, view: ViewId, a: Address, b: Address, c: Address, d: Address)
    requires a != b && a != c && a != d && b != c && b != d && c != d && stray(0) == a
    ensures Filled(Config(5, true, 2), Start(NewCache(stray), view), [Upserts([a, b, b, c, d])]).trace.failed
    ensures !Loses(5, NewCache(stray).roots.Keys, 0, view)
  {
    var addresses := [a, b, b, c, d];
    EntriesOfBlock(addresses, WithStorage);
    MisreadFails<Bytes, Bytes>(stray, a, b, c, d, [1]);
    assert EntriesFor(addresses) == [Entry(a, [1]), Entry(b, [1]), Entry(b, [1]), Entry(c, [1]), Entry(d, [1])];
    assert Start(NewCache(stray), view) == Recent(map[], [], Quiet(stray));
    assert NewCache(stray).roots.Keys + {view} == {view};
  }

  /** One batch, and an orderly one, is enough for the assertion to fail when a key is read wrong. */
  method MisreadBatch(stray: Strays, view: ViewId, a: Address, b: Address, c: Address, d: Address)
    returns (assertionFailed: bool, dangling: bool)
    requires a != b && a != c && a != d && b != c && b != d && c != d && stray(0) == a
    ensures assertionFailed && !dangling
  {
    var cache := new CoherentStateCache(Config(5, true, 2), stray);
    var batch := [Upserts([a, b, b, c, d])];
    MisreadBatchFails(stray, view, a, b, c, d);
    cache.OnNewBlock(view, batch);
    return cache.assertionFailed, cache.danglingWrite;
  }

  // ---------------------------------------------------------------- a view with too many keys and no list

  /** Two views one after the other, of which the older holds `cache`. */
  function Successive(stray: Strays, view: ViewId, cache: map<Bytes, Bytes>): Snapshot
    requires view < TWO_TO_64 - 1
  {
    Snapshot(map[view := Root(0, cache, true, true)][view + 1 := Root(1, map[], true, true)],
             2, view + 1, [], Quiet(stray))
  }

  lemma SuccessorStart(stray: Strays, config: Config, view: ViewId, cache: map<Bytes, Bytes>)
    requires view < TWO_TO_64 - 1
    ensures Filled(config, Start(Successive(stray, view, cache), view + 1), NOTHING) == Recent(cache, [], Quiet(stray))
  {
    NothingSaysNothing(ReadingOf(config.withStorage));
    assert Wrapped(view + 1 - 1) == view;
  }

  lemma FirstSuccessorStart(stray: Strays, config: Config, view: ViewId)
    requires view < TWO_TO_64 - 1
    ensures Filled(config, Start(OneView(stray, view), view + 1), NOTHING) == Recent(map[], [], Quiet(stray))
  {
    NothingSaysNothing(ReadingOf(config.withStorage));
    assert Wrapped(view + 1 - 1) == view;
  }

  lemma FirstSuccessor(stray: Strays, config: Config, view: ViewId)
    requires config.maxViews >= 2 && view < TWO_TO_64 - 1
    ensures Applied(config, OneView(stray, view), view + 1, NOTHING) == Successive(stray, view, map[])
    ensures !Loses(config.maxViews, OneView(stray, view).roots.Keys, view, view + 1)
  {
    FirstSuccessorStart(stray, config, view);
    assert OneView(stray, view).roots.Keys + {view + 1} == {view, view + 1};
    AppliedWithRoom(config, OneView(stray, view), view + 1, NOTHING, Recent(map[], [], Quiet(stray)));
  }

  method MakeSuccessive(stray: Strays, config: Config, view: ViewId) returns (cache: CoherentStateCache)
    requires config.maxViews >= 2 && view < TWO_TO_64 - 1
    ensures fresh(cache) && cache.config == config
    ensures !cache.danglingWrite && cache.State() == Successive(stray, view, map[])
  {
    cache := new CoherentStateCache(config, stray);
    FirstBatch(stray, config, view);
    cache.OnNewBlock(view, NOTHING);
    FirstSuccessor(stray, config, view);
    cache.OnNewBlock(view + 1, NOTHING);
  }

  /** A read of the older view that misses. */
  method ReadPredecessor(cache: CoherentStateCache, view: ViewId, e: KeyValue, ghost m: map<Bytes, Bytes>)
    requires view < TWO_TO_64 - 1 && !cache.danglingWrite && e.key !in m
    requires cache.State() == Successive(cache.stray, view, m)
    modifies cache
    ensures !cache.danglingWrite && cache.State() == Successive(cache.stray, view, m[e.key := e.value])
  {
    var found := cache.Find(view, e.key);
    assert cache.State() == Successive(cache.stray, view, m);
    cache.Fill(found.root, e.key, e.value);
    assert cache.roots == Successive(cache.stray, view, m[e.key := e.value]).roots;
  }

  /** The batch of the latest view delivered again, after reads of the view before it beyond the limit: the latest
      view has more keys than it may, and the list holds none of them. */
  method ForgottenKeys(stray: Strays, view: ViewId, a: Address, b: Address)
    returns (config: Config, latestKeys: nat, listed: nat, assertionFailed: bool, dangling: bool)
    requires view < TWO_TO_64 - 1 && a != b
    ensures latestKeys > config.maxStateKeys && listed == 0 && !assertionFailed && !dangling
  {
    config := Config(5, true, 1);
    var cache := MakeSuccessive(stray, config, view);
    ReadPredecessor(cache, view, Entry(a, [1]), map[]);
    ReadPredecessor(cache, view, Entry(b, [1]), map[][a := [1]]);
    ghost var keys: map<Bytes, Bytes> := map[][a := [1]][b := [1]];
    SuccessorStart(stray, config, view, keys);
    assert cache.roots.Keys + {view + 1} == {view, view + 1};
    cache.OnNewBlock(view + 1, NOTHING);
    assert keys.Keys == {a, b} && |keys| == |keys.Keys|;
    return config, |cache.roots[view + 1].cache|, |cache.evictions|, cache.assertionFailed, cache.danglingWrite;
  }
}
