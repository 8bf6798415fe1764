/** Runs of the state cache, from construction on, that end where one would not want them to. */
module CacheFailures {
  import opened Base
  import opened RecentKeys
  import opened StateChanges
  import opened ChangeMeaning
  import opened CacheViews
  import opened StateCache
  import opened CacheRuns
  import opened CachedReads

  const NOTHING: Batch := [[]]

  lemma NothingSaysNothing(reading: Reading)
    ensures BatchEntries(NOTHING, reading) == [] && BatchEffect(NOTHING, reading) == map[]
  {
    assert NOTHING[..0] == [];
  }

  lemma EntriesOfOne(change: AccountChange, reading: Reading)
    ensures BatchEntries([[change]], reading) == ChangeEntries(change, reading)
  {
    var batch := [[change]];
    assert batch[..0] == [] && batch[0][..0] == [];
    assert BlockEntries(batch[0], reading) == ChangeEntries(change, reading);
  }

  /** Nothing has gone wrong so far. */
  function Quiet<K>(stray: nat -> K): Trace<K> {
    Trace(false, 0, false, stray)
  }

  lemma PutFirst<K, V>(stray: nat -> K, limit: nat, e: Entry<K, V>)
    requires limit != 0
    ensures PutAll(limit, Recent(map[], [], Quiet(stray)), [e]) == Recent(map[e.key := e.value], [e.key], Quiet(stray))
  {
    PutAllOfSingle(limit, Recent(map[], [], Quiet(stray)), e);
  }

  lemma PutSecond<K, V>(stray: nat -> K, limit: nat, a: K, v: V, e: Entry<K, V>)
    requires limit >= 2 && a != e.key
    ensures PutAll(limit, Recent(map[a := v], [a], Quiet(stray)), [e])
         == Recent(map[a := v, e.key := e.value], [e.key, a], Quiet(stray))
  {
    PutAllOfSingle(limit, Recent(map[a := v], [a], Quiet(stray)), e);
  }

  /** The state after a first batch that changes nothing. */
  function OneView(stray: Strays, view: ViewId): Snapshot {
    Snapshot(map[view := Root(0, map[], true, true)], 1, view, [], Quiet(stray))
  }

  /** With room for one more view nothing is evicted. */
  lemma AppliedWithRoom(config: Config, s: Snapshot, view: ViewId, batch: Batch, r: Recent<Bytes, Bytes>)
    requires |s.roots.Keys + {view}| <= config.maxViews && Filled(config, Start(s, view), batch) == r
    ensures Applied(config, s, view, batch)
         == Snapshot(s.roots[view := RootOf(s, view).(cache := r.cache, ready := true, canonical := true)],
                     if view in s.roots then s.created else s.created + 1, view, r.keys, r.trace)
    ensures !Loses(config.maxViews, s.roots.Keys, s.latest, view)
  {
    var root := AdvancedRoot(s, view);
    var roots := s.roots[view := root];
    assert roots.Keys == s.roots.Keys + {view} && |roots| == |roots.Keys|;
    assert EvictRoots(roots, config.maxViews, s.latest, view) == roots;
    var root' := root.(cache := r.cache, ready := true);
    assert roots[view := root'] == s.roots[view := root'];
  }

  lemma FirstBatch(stray: Strays, config: Config, view: ViewId)
    requires config.maxViews != 0
    ensures Applied(config, NewCache(stray), view, NOTHING) == OneView(stray, view)
    ensures !Loses(config.maxViews, NewCache(stray).roots.Keys, 0, view)
  {
    NothingSaysNothing(ReadingOf(config.withStorage));
    var r := Recent(map[], [], Quiet(stray));
    assert Start(NewCache(stray), view) == r;
    assert NewCache(stray).roots.Keys + {view} == {view};
    AppliedWithRoom(config, NewCache(stray), view, NOTHING, r);
  }

  lemma EvictAllButTheNext(view: ViewId, a: Mark, b: Mark)
    requires 0 < view < TWO_TO_64 - 1
    ensures EvictRoots(map[view := a, view + 1 := b], 1, view, view + 1) == map[view + 1 := b]
  {
    var marks := map[view := a, view + 1 := b];
    assert marks.Keys == {view, view + 1} && |marks| == |marks.Keys| == 2;
    assert Wrapped(view - 1 + 1) == view;
  }

  /** With room for one view, the batch of the next view leaves no other. */
  lemma OnlyTheNext(stray: Strays, view: ViewId)
    requires 0 < view < TWO_TO_64 - 1
    ensures Advanced(1, ViewsOf(OneView(stray, view)), view + 1) == Views(map[view + 1 := Mark(1, true)], view + 1, 2)
  {
    var v := ViewsOf(OneView(stray, view));
    assert v == Views(map[view := Mark(0, true)], view, 1);
    var marks := map[view := Mark(0, true), view + 1 := Mark(1, true)];
    assert WithRoot(v, view + 1).marks[view + 1 := Mark(1, true)] == marks;
    EvictAllButTheNext(view, Mark(0, true), Mark(1, true));
  }

  lemma NextBatchSteps(stray: Strays, db: Database, view: ViewId, batch: Batch, steps: seq<Step>)
    requires 0 < view < TWO_TO_64 - 1 && batch != [] && steps == [Block(view + 1, batch)]
    ensures After(1, ViewsOf(OneView(stray, view)), steps) == Views(map[view + 1 := Mark(1, true)], view + 1, 2)
    ensures !DanglesIn(1, db, ViewsOf(OneView(stray, view)), steps)
  {
    OnlyTheNext(stray, view);
    OneMoreStep(1, db, ViewsOf(OneView(stray, view)), [], Block(view + 1, batch));
    assert [] + [Block(view + 1, batch)] == steps;
    assert Wrapped(view - 1 + 1) == view;
  }

  /** With room for one view: a read of a key the database has answers with the empty value when the batch of
      the next view comes between `get_view` and `get`. */
  method EvictedRead(stray: Strays, db: Database, view: ViewId, key: Address, batch: Batch)
    returns (value: Bytes, dangling: bool)
    requires 0 < view < TWO_TO_64 - 1 && db(view, key) != [] && batch != []
    ensures value == [] && !dangling
  {
    var afterView := [Block(view + 1, batch)];
    var cache := new CoherentStateCache(Config(1, true, 10), stray);
    FirstBatch(stray, cache.config, view);
    cache.OnNewBlock(view, NOTHING);
    NextBatchSteps(stray, db, view, batch, afterView);
    var found;
    value, found := GetOne(cache, db, view, key, afterView, []);
    dangling := cache.danglingWrite;
  }

  /** The same batch, coming between the miss and the store, makes the read write to a destroyed root. */
  method DanglingStore(stray: Strays, db: Database, view: ViewId, key: Address, batch: Batch) returns (dangling: bool)
    requires 0 < view < TWO_TO_64 - 1 && db(view, key) != [] && batch != []
    ensures dangling
  {
    var afterMiss := [Block(view + 1, batch)];
    var cache := new CoherentStateCache(Config(1, true, 10), stray);
    FirstBatch(stray, cache.config, view);
    cache.OnNewBlock(view, NOTHING);
    NextBatchSteps(stray, db, view, batch, afterMiss);
    var value, found := GetOne(cache, db, view, key, [], afterMiss);
    dangling := cache.danglingWrite;
  }

  /** Reads of any views, then the first batch: it is written to a destroyed root exactly when the views are
      too many and the limit is not one, unless its id is zero or among the last ones below 2^64. */
  method FirstBatchAfterReads(stray: Strays, config: Config, db: Database, views: seq<ViewId>, next: ViewId,
                              batch: Batch)
    returns (dangling: bool)
    requires config.maxViews != 0 && batch != []
    ensures dangling <==>
              |Distinct(views) + {next}| > config.maxViews > 1 && 0 < next <= TWO_TO_64 - config.maxViews + 1
  {
    var cache := new CoherentStateCache(config, stray);
    assert ViewsOf(NewCache(stray)) == NO_VIEWS;
    FirstBatchLostIff(config.maxViews, db, views, next, batch);
    var _ := Drive(cache, db, Reads(views) + [Block(next, batch)]);
    dangling := cache.danglingWrite;
  }

  /** Two reads are enough when there is room for two views. */
  method LostBatch(stray: Strays) returns (dangling: bool)
    ensures dangling
  {
    assert Distinct([10, 11]) + {12} == {10, 11, 12};
    dangling := FirstBatchAfterReads(stray, Config(2, true, 10), (v, k) => [], [10, 11], 12, NOTHING);
  }

  // ---------------------------------------------------------------- storage changes left out

  /** The state after a first batch that changes nothing and a read of `slot`. */
  function OneSlot(stray: Strays, view: ViewId, slot: Bytes, value: Bytes): Snapshot {
    Snapshot(map[view := Root(0, map[slot := value], true, true)], 1, view, [slot], Quiet(stray))
  }

  /** A database in which `slot` has the given value until the batch of `view`. */
  function DatabaseWith(slot: Bytes, value: Bytes, view: ViewId, batch: Batch): Database {
    var whole := BatchEffect(batch, Whole);
    (v: ViewId, k: Bytes) => if v == view && k in whole then whole[k] else if k == slot then value else []
  }

  lemma ReadOneSlot(stray: Strays, view: ViewId, slot: Bytes, value: Bytes)
    ensures Stored(10, OneView(stray, view), view, Entry(slot, value)) == OneSlot(stray, view, slot, value)
  {
    var r := Recent(map[], [], Quiet(stray));
    assert Put(10, r, Entry(slot, value)) == Recent(map[slot := value], [slot], Quiet(stray));
    var roots := map[view := Root(0, map[], true, true)];
    var root := Root(0, map[slot := value], true, true);
    assert roots[view := root] == map[view := root];
  }

  /** A change whose storage part is left out leaves a cached slot as it is. */
  lemma SlotIsLeft(stray: Strays, config: Config, view: ViewId, change: AccountChange, slot: Bytes, value: Bytes)
    requires config.maxViews > 1 && config.maxStateKeys >= 2 && view < TWO_TO_64 - 1 && !IsAccount(slot)
    requires !(config.withStorage && change.action.STORAGE?)
    ensures
      var s := OneSlot(stray, view, slot, value);
      && !Loses(config.maxViews, s.roots.Keys, view, view + 1)
      && slot in Filled(config, Start(s, view + 1), [[change]]).cache
      && Filled(config, Start(s, view + 1), [[change]]).cache[slot] == value
  {
    var s, reading := OneSlot(stray, view, slot, value), ReadingOf(config.withStorage);
    assert s.roots.Keys + {view + 1} == {view, view + 1};
    assert Wrapped(view + 1 - 1) == view;
    var r, entries := Recent(map[slot := value], [slot], Quiet(stray)), AccountEntries(change);
    assert Start(s, view + 1) == r;
    EntriesOfOne(change, reading);
    assert Filled(config, r, [[change]]) == PutAll(config.maxStateKeys, r, entries);
    if entries != [] {
      assert entries == [entries[0]];
      PutSecond<Bytes, Bytes>(stray, config.maxStateKeys, slot, value, entries[0]);
    }
  }

  lemma DatabaseIsFaithful(slot: Bytes, value: Bytes, view: ViewId, batch: Batch)
    requires view < TWO_TO_64 - 1
    ensures
      var db := DatabaseWith(slot, value, view + 1, batch);
      Faithful(db, view, NOTHING) && Faithful(db, view + 1, batch)
  {
    var db := DatabaseWith(slot, value, view + 1, batch);
    DatabaseIsAccounted(slot, value, view, batch);
    FaithfulIff(db, view, NOTHING);
    FaithfulIff(db, view + 1, batch);
  }

  lemma DatabaseIsAccounted(slot: Bytes, value: Bytes, view: ViewId, batch: Batch)
    requires view < TWO_TO_64 - 1
    ensures
      var db := DatabaseWith(slot, value, view + 1, batch);
      Accounted(db, view, NOTHING) && Accounted(db, view + 1, batch)
  {
    NothingSaysNothing(Whole);
    assert Wrapped(view + 1 - 1) == view && Wrapped(view - 1) != view + 1;
  }

  /** A first batch that changes nothing and a read that misses. */
  method CacheOneSlot(stray: Strays, config: Config, view: ViewId, slot: Bytes, value: Bytes)
    returns (cache: CoherentStateCache)
    requires config.maxViews != 0 && config.maxStateKeys == 10
    ensures fresh(cache) && cache.config == config
    ensures !cache.danglingWrite && cache.State() == OneSlot(stray, view, slot, value)
  {
    cache := new CoherentStateCache(config, stray);
    FirstBatch(stray, config, view);
    cache.OnNewBlock(view, NOTHING);
    var found := cache.Find(view, slot);
    assert found == Miss(RootId(view, 0)) && cache.State() == OneView(stray, view);
    ReadOneSlot(stray, view, slot, value);
    cache.Fill(found.root, slot, value);
  }

  /** A slot that is cached for one view, and that the batch of the next view sets to another value, is still
      found with its old value in the next view, if the batch carries that change with an action other than
      STORAGE or the cache is configured without storage. */
  method StaleSlot(stray: Strays, withStorage: bool, view: ViewId, change: AccountChange, slot: Bytes, value: Bytes)
    returns (db: Database, found: Found)
    requires view < TWO_TO_64 - 1 && !(withStorage && change.action.STORAGE?)
    requires slot in BatchEffect([[change]], Whole) && !IsAccount(slot)
    ensures Faithful(db, view, NOTHING) && Faithful(db, view + 1, [[change]]) && db(view, slot) == value
    ensures found == Hit(value) && db(view + 1, slot) == BatchEffect([[change]], Whole)[slot]
  {
    var batch := [[change]];
    db := DatabaseWith(slot, value, view + 1, batch);
    DatabaseIsFaithful(slot, value, view, batch);
    var cache := CacheOneSlot(stray, Config(5, withStorage, 10), view, slot, value);
    SlotIsLeft(stray, cache.config, view, change, slot, value);
    cache.OnNewBlock(view + 1, batch);
    found := cache.Find(view + 1, slot);
  }

  /** There are such changes: a slot set along with its account. */
  lemma SlotOfUpsert(address: Address, location: Location, data: Bytes) returns (change: AccountChange, slot: Bytes)
    ensures change.action.UPSERT? && !IsAccount(slot)
    ensures slot in BatchEffect([[change]], Whole) && BatchEffect([[change]], Whole)[slot] == data
  {
    change := AccountChange(UPSERT, address, 1, [1], [StorageChange(location, data)]);
    slot := StorageKey(address, 1, location);
    EntriesOfOne(change, Whole);
    var account, entry := AccountEntries(change), StorageEntry(change, 0);
    assert StorageEntries(change, 1) == [entry];
    EffectOfConcatenation(account, [entry]);
    EffectOfSingle(entry);
  }
}
