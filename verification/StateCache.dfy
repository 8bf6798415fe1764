/**
 `CoherentStateCache`: a cache of the state table with one root per database view, fed by state-change
 batches and by reads that miss.
 */
module StateCache {
  import opened Base
  import opened RecentKeys
  import opened KeyOrder
  import opened StateChanges
  import opened ChangeMeaning
  import opened CacheViews

  datatype Root = Root(serial: nat, cache: map<Bytes, Bytes>, ready: bool, canonical: bool)

  datatype Config = Config(maxViews: uint64, withStorage: bool, maxStateKeys: uint32)

  /** What a lookup finds: the view has no root, the key is cached, or it is not; a miss keeps hold of the
      root it looked in. */
  datatype Found = Gone | Hit(value: Bytes) | Miss(root: RootId)

  function MarksOf(roots: map<ViewId, Root>): map<ViewId, Mark> {
    map v | v in roots :: MarkOf(roots[v])
  }

  lemma MarksOfEvicted(roots: map<ViewId, Root>, maxViews: uint64, latest: ViewId, next: ViewId)
    ensures MarksOf(EvictRoots(roots, maxViews, latest, next)) == EvictRoots(MarksOf(roots), maxViews, latest, next)
  {
    assert MarksOf(roots).Keys == roots.Keys;
    assert |MarksOf(roots).Keys| == |MarksOf(roots)| && |roots.Keys| == |roots|;
  }

  /** The preceding view has been reached by a batch. */
  predicate Extends(roots: map<ViewId, Root>, view: ViewId) {
    var prev := Wrapped(view - 1);
    prev in roots && roots[prev].canonical
  }

  /** The cache an advanced root starts from. */
  function Inherited(roots: map<ViewId, Root>, view: ViewId): map<Bytes, Bytes> {
    if Extends(roots, view) then roots[Wrapped(view - 1)].cache
    else if view in roots then roots[view].cache else map[]
  }

  /** Creating the root of a view that has none changes nothing of that. */
  lemma InheritedByNewRoot(roots: map<ViewId, Root>, view: ViewId, root: Root)
    requires if view in roots then root == roots[view] else root.cache == map[]
    ensures Extends(roots[view := root], view) == Extends(roots, view)
    ensures Inherited(roots[view := root], view) == Inherited(roots, view)
  {
    assert Wrapped(view - 1) != view;
  }

  /** That cache with the eviction list a batch starts from: the current one if the batch extends a view
      reached by a batch, otherwise a new one in the order of keys. */
  ghost function Start(s: Snapshot, view: ViewId): Recent<Bytes, Bytes> {
    var inherited := Inherited(s.roots, view);
    Recent(inherited, if Extends(s.roots, view) then s.evictions else Descending(inherited.Keys), s.trace)
  }

  function MarkOf(root: Root): Mark {
    Mark(root.serial, root.canonical)
  }

  lemma MarksOfUpdate(roots: map<ViewId, Root>, view: ViewId, root: Root)
    ensures MarksOf(roots[view := root]) == MarksOf(roots)[view := MarkOf(root)]
  {
  }

  lemma KeepsMarks(roots: map<ViewId, Root>, view: ViewId, root: Root)
    requires view in roots && MarkOf(root) == MarkOf(roots[view])
    ensures MarksOf(roots[view := root]) == MarksOf(roots)
  {
  }

  /** Storing an advanced root and evicting, seen from the marks of the roots. */
  lemma AdvanceMarks(roots: map<ViewId, Root>, created: nat, maxViews: uint64, latest: ViewId, view: ViewId, root: Root)
    requires root.serial == (if view in roots then roots[view].serial else created) && root.canonical
    ensures MarksOf(EvictRoots(roots[view := root], maxViews, latest, view))
         == Advanced(maxViews, Views(MarksOf(roots), latest, created), view).marks
  {
    MarksOfEvicted(roots[view := root], maxViews, latest, view);
    MarksOfUpdate(roots, view, root);
    var v' := WithRoot(Views(MarksOf(roots), latest, created), view);
    assert v'.marks[view := v'.marks[view].(canonical := true)] == MarksOf(roots)[view := MarkOf(root)];
  }

  lemma AdvanceLeaves(roots: map<ViewId, Root>, maxViews: uint64, latest: ViewId, view: ViewId, root: Root)
    ensures
      var kept := EvictRoots(roots[view := root], maxViews, latest, view);
      && (view in kept <==> !Loses(maxViews, roots.Keys, latest, view))
      && (view in kept ==> kept[view] == root)
      && (forall v | v in kept && v != view :: v in roots && kept[v] == roots[v])
  {
    EvictRootsLeaves(roots[view := root], maxViews, latest, view);
    assert roots[view := root].Keys + {view} == roots.Keys + {view};
  }

  /** All of the cache's state, short of a dangling write. */
  datatype Snapshot = Snapshot(
    roots: map<ViewId, Root>, created: nat, latest: ViewId, evictions: seq<Bytes>, trace: Trace<Bytes>)

  type Strays = nat -> Bytes

  function NewCache(stray: Strays): Snapshot {
    Snapshot(map[], 0, 0, [], Trace(false, 0, false, stray))
  }

  function ViewsOf(s: Snapshot): Views {
    Views(MarksOf(s.roots), s.latest, s.created)
  }

  function RootOf(s: Snapshot, view: ViewId): Root {
    if view in s.roots then s.roots[view] else Root(s.created, map[], false, false)
  }

  /** `advance_root` */
  function AdvancedRoot(s: Snapshot, view: ViewId): Root {
    RootOf(s, view).(canonical := true, cache := Inherited(s.roots, view))
  }

  ghost function Advance(maxViews: uint64, s: Snapshot, view: ViewId): Snapshot {
    Snapshot(EvictRoots(s.roots[view := AdvancedRoot(s, view)], maxViews, s.latest, view),
             if view in s.roots then s.created else s.created + 1, view,
             Start(s, view).keys, s.trace)
  }

  /** The cache and the eviction list after the entries of a batch have been added. */
  function Filled(config: Config, r: Recent<Bytes, Bytes>, batch: Batch): Recent<Bytes, Bytes> {
    PutAll(config.maxStateKeys, r, BatchEntries(batch, ReadingOf(config.withStorage)))
  }

  /** A batch written to an advanced root. */
  function Written(config: Config, s: Snapshot, view: ViewId, root: Root, batch: Batch): Snapshot {
    var r := Filled(config, Recent(root.cache, s.evictions, s.trace), batch);
    s.(roots := s.roots[view := root.(cache := r.cache, ready := true)], evictions := r.keys, trace := r.trace)
  }

  /** `on_new_block`, when the root it advances is not evicted. */
  ghost function Applied(config: Config, s: Snapshot, view: ViewId, batch: Batch): Snapshot {
    Written(config, Advance(config.maxViews, s, view), view, AdvancedRoot(s, view), batch)
  }

  /** Adding one entry to the root of `view`; only for the latest view is the eviction list concerned. */
  function Stored(limit: nat, s: Snapshot, view: ViewId, e: KeyValue): Snapshot
    requires view in s.roots
  {
    var root := s.roots[view];
    if view != s.latest then
      s.(roots := s.roots[view := root.(cache := root.cache[e.key := e.value])])
    else
      var r := Put(limit, Recent(root.cache, s.evictions, s.trace), e);
      s.(roots := s.roots[view := root.(cache := r.cache)], evictions := r.keys, trace := r.trace)
  }

  /** Which roots there are after a batch, and that no other root is changed. */
  lemma AppliedMeans(config: Config, s: Snapshot, view: ViewId, batch: Batch)
    requires !Loses(config.maxViews, s.roots.Keys, s.latest, view)
    ensures
      var s' := Applied(config, s, view, batch);
      && ViewsOf(s') == Advanced(config.maxViews, ViewsOf(s), view)
      && (forall v | v in s'.roots && v != view :: v in s.roots && s'.roots[v] == s.roots[v])
      && view in s'.roots && s'.roots[view].ready && s'.roots[view].canonical && s'.latest == view
      && Recent(s'.roots[view].cache, s'.evictions, s'.trace) == Filled(config, Start(s, view), batch)
  {
    var root := AdvancedRoot(s, view);
    var r := Filled(config, Start(s, view), batch);
    AdvanceMarks(s.roots, s.created, config.maxViews, s.latest, view, root);
    AdvanceLeaves(s.roots, config.maxViews, s.latest, view, root);
    KeepsMarks(Advance(config.maxViews, s, view).roots, view, root.(cache := r.cache, ready := true));
    assert MarksOf(s.roots).Keys == s.roots.Keys;
  }

  /** The bound below which `evict_roots` deletes, in plain integers: the number of views is subtracted from that of
      the latest one, and 2^64 added where this is negative. */
  function OldestDeleted(maxViews: uint64, latest: ViewId): int {
    if latest + 1 >= maxViews then latest + 1 - maxViews else latest + 1 - maxViews + TWO_TO_64
  }

  /** Which views have a root after a batch for `next`, of those that had one or got one by it. */
  ghost predicate RootsLeft(maxViews: uint64, had: set<ViewId>, latest: ViewId, next: ViewId, left: set<ViewId>) {
    if |had| <= maxViews then left == had
    else if next == 0 then left == {next}
    else forall v :: v in left <==> v in had && v > OldestDeleted(maxViews, latest)
  }

  lemma EvictedRootsLeft(roots: map<ViewId, Root>, maxViews: uint64, latest: ViewId, next: ViewId)
    requires next in roots && maxViews != 0
    ensures RootsLeft(maxViews, roots.Keys, latest, next, EvictRoots(roots, maxViews, latest, next).Keys)
  {
    assert |roots.Keys| == |roots|;
    assert Wrapped(latest - maxViews + 1) == OldestDeleted(maxViews, latest);
  }

  /** Which views have a root after a batch that is not lost. */
  lemma RootsAfterBatch(config: Config, s: Snapshot, view: ViewId, batch: Batch)
    requires config.maxViews != 0 && !Loses(config.maxViews, s.roots.Keys, s.latest, view)
    ensures RootsLeft(config.maxViews, s.roots.Keys + {view}, s.latest, view,
                      Applied(config, s, view, batch).roots.Keys)
  {
    var roots := s.roots[view := AdvancedRoot(s, view)];
    EvictedRootsLeft(roots, config.maxViews, s.latest, view);
    AdvanceLeaves(s.roots, config.maxViews, s.latest, view, AdvancedRoot(s, view));
    assert roots.Keys == s.roots.Keys + {view};
    var kept := EvictRoots(roots, config.maxViews, s.latest, view);
    assert view in kept && kept.Keys + {view} == kept.Keys;
  }

  /** What is found for an account after a batch that is not lost: the data of the last change that names it, nothing
      if that removes it, and what was inherited if there is none. */
  lemma AccountsAfterBatch(config: Config, s: Snapshot, view: ViewId, batch: Batch, a: Bytes)
    requires !Loses(config.maxViews, s.roots.Keys, s.latest, view) && IsAccount(a)
    ensures
      var s' := Applied(config, s, view, batch);
      && view in s'.roots
      && (a in s'.roots[view].cache ==>
            AccountFound(Flat(batch), a, Inherited(s.roots, view), s'.roots[view].cache[a]))
  {
    var reading := ReadingOf(config.withStorage);
    AppliedMeans(config, s, view, batch);
    PutAllAddsNothing(config.maxStateKeys, Start(s, view), BatchEntries(batch, reading));
    if a in Applied(config, s, view, batch).roots[view].cache {
      AccountsAreFound(batch, reading, a, Inherited(s.roots, view));
    }
  }

  lemma PlainlyAfterBatch(config: Config, s: Snapshot, view: ViewId, batch: Batch)
    requires config.maxViews != 0 && !Loses(config.maxViews, s.roots.Keys, s.latest, view)
    ensures
      var s' := Applied(config, s, view, batch);
      && RootsLeft(config.maxViews, s.roots.Keys + {view}, s.latest, view, s'.roots.Keys)
      && view in s'.roots
      && forall a | IsAccount(a) && a in s'.roots[view].cache ::
           AccountFound(Flat(batch), a, Inherited(s.roots, view), s'.roots[view].cache[a])
  {
    RootsAfterBatch(config, s, view, batch);
    AppliedMeans(config, s, view, batch);
    var s' := Applied(config, s, view, batch);
    forall a | IsAccount(a) && a in s'.roots[view].cache
      ensures AccountFound(Flat(batch), a, Inherited(s.roots, view), s'.roots[view].cache[a])
    {
      AccountsAfterBatch(config, s, view, batch, a);
    }
  }

  lemma NothingLeftOut(config: Config, s: Snapshot, view: ViewId, batch: Batch)
    requires !Loses(config.maxViews, s.roots.Keys, s.latest, view)
    requires Tracks(Start(s, view).keys, Start(s, view).cache) && !Applied(config, s, view, batch).trace.misread
    requires
      var effect := BatchEffect(batch, ReadingOf(config.withStorage));
      |Inherited(s.roots, view).Keys + effect.Keys| <= config.maxStateKeys
    ensures
      var s' := Applied(config, s, view, batch);
      && view in s'.roots
      && s'.roots[view].cache == Inherited(s.roots, view) + BatchEffect(batch, ReadingOf(config.withStorage))
  {
    AppliedMeans(config, s, view, batch);
    NothingDropped(config.maxStateKeys, Start(s, view), BatchEntries(batch, ReadingOf(config.withStorage)));
  }

  /** What is found for a key in a cache updated with a batch, however that is read. */
  lemma FoundAfterUpdate(before: map<Bytes, Bytes>, batch: Batch, reading: Reading, key: Bytes)
    ensures
      var after, changes := before + BatchEffect(batch, reading), Flat(batch);
      && (key in before && Untouched(changes, key) ==> key in after && after[key] == before[key])
      && (forall i | LastAccount(changes, key, i) ::
            key in after && after[key] == if changes[i].action == REMOVE then [] else changes[i].data)
  {
    if Untouched(Flat(batch), key) {
      UntouchedIsNotSet(batch, reading, key);
    }
    forall i | LastAccount(Flat(batch), key, i)
      ensures key in BatchEffect(batch, reading)
      ensures BatchEffect(batch, reading)[key] == if Flat(batch)[i].action == REMOVE then [] else Flat(batch)[i].data
    {
      LastAccountIsSet(batch, reading, key, i);
    }
  }

  /** With room for all keys, no misread and the list in step, a batch that extends the latest view leaves nothing
      out: what it does not touch is found as before, and every account it sets or removes is found. */
  lemma NothingForgotten(config: Config, s: Snapshot, view: ViewId, batch: Batch, key: Bytes)
    requires !Loses(config.maxViews, s.roots.Keys, s.latest, view) && view != 0 && s.latest == view - 1
    requires s.latest in s.roots && s.roots[s.latest].canonical && Tracks(s.evictions, s.roots[s.latest].cache)
    requires !Applied(config, s, view, batch).trace.misread
    requires
      var effect := BatchEffect(batch, ReadingOf(config.withStorage));
      |s.roots[s.latest].cache.Keys + effect.Keys| <= config.maxStateKeys
    ensures
      var before, changes := s.roots[s.latest].cache, Flat(batch);
      var s' := Applied(config, s, view, batch);
      && view in s'.roots
      && (key in before && Untouched(changes, key) ==>
            key in s'.roots[view].cache && s'.roots[view].cache[key] == before[key])
      && (forall i | LastAccount(changes, key, i) ::
            && key in s'.roots[view].cache
            && s'.roots[view].cache[key] == if changes[i].action == REMOVE then [] else changes[i].data)
  {
    ExtendingStart(s, view);
    NothingLeftOut(config, s, view, batch);
    FoundAfterUpdate(s.roots[s.latest].cache, batch, ReadingOf(config.withStorage), key);
  }

  /** A batch that extends the latest view starts from that view's cache and the current list. */
  lemma ExtendingStart(s: Snapshot, view: ViewId)
    requires view != 0 && s.latest == view - 1 && s.latest in s.roots && s.roots[s.latest].canonical
    ensures Start(s, view) == Recent(s.roots[s.latest].cache, s.evictions, s.trace)
    ensures Inherited(s.roots, view) == s.roots[s.latest].cache
  {
    assert Wrapped(view - 1) == s.latest;
  }

  lemma OneMoreEntry(change: AccountChange, i: nat, e: KeyValue, done: seq<KeyValue>)
    requires i < |change.storageChanges| && e == StorageEntry(change, i) && done == StorageEntries(change, i)
    ensures done + [e] == StorageEntries(change, i + 1)
  {
  }

  class CoherentStateCache {
    const config: Config
    /** The keys read through pointers to erased entries. */
    const stray: Strays
    var roots: map<ViewId, Root>
    var created: nat
    var latestView: ViewId
    var evictions: seq<Bytes>
    /** Set when the assertion on the number of erased keys does not hold. */
    var assertionFailed: bool
    /** How many keys were read through pointers to erased entries, and whether one was not the erased key. */
    var peeks: nat
    var misread: bool
    /** Set by a write through a pointer to a root that has been destroyed; nothing is known afterwards. */
    var danglingWrite: bool

    constructor (config: Config, stray: Strays)
      ensures this.config == config && State() == NewCache(stray) && !danglingWrite
    {
      this.config, this.stray, roots, created, latestView := config, stray, map[], 0, 0;
      evictions, assertionFailed, peeks, misread, danglingWrite := [], false, 0, false, false;
    }

    function State(): Snapshot
      reads this
    {
      Snapshot(roots, created, latestView, evictions, Traces())
    }

    function Traces(): Trace<Bytes>
      reads this
    {
      Trace(assertionFailed, peeks, misread, stray)
    }

    /** Undefined behaviour. */
    method Corrupt()
      modifies this
      ensures danglingWrite
    {
      roots, created, latestView, evictions, assertionFailed, peeks, misread := *, *, *, *, *, *, *;
      danglingWrite := true;
    }

    /** `add`, on the cache of the root of `view`: for the latest view, the key becomes the most recently
        used one, and the least recently used one is dropped when there are too many. If the key was there, its
        entry has been erased when it is read again to be removed from the list. */
    method Add(cache: map<Bytes, Bytes>, key: Bytes, value: Bytes, view: ViewId) returns (cache': map<Bytes, Bytes>)
      modifies this`evictions, this`assertionFailed, this`peeks, this`misread
      ensures view != latestView ==>
                cache' == cache[key := value] && evictions == old(evictions) && Traces() == old(Traces())
      ensures view == latestView ==>
                Recent(cache', evictions, Traces())
                == Put(config.maxStateKeys, Recent(cache, old(evictions), old(Traces())), Entry(key, value))
      ensures view == latestView ==>
                PutMeans(config.maxStateKeys, Recent(cache, old(evictions), old(Traces())), key,
                         Recent(cache', evictions, Traces()))
    {
      PutDoesWhatItMeans(config.maxStateKeys, Recent(cache, evictions, Traces()), Entry(key, value));
      cache' := cache[key := value];
      if latestView == view {
        cache' := Renew(cache, key, value);
      }
    }

    /** `add` for the latest view. */
    method Renew(cache: map<Bytes, Bytes>, key: Bytes, value: Bytes) returns (cache': map<Bytes, Bytes>)
      modifies this`evictions, this`assertionFailed, this`peeks, this`misread
      ensures Recent(cache', evictions, Traces())
           == Put(config.maxStateKeys, Recent(cache, old(evictions), old(Traces())), Entry(key, value))
    {
      ListFirst(cache, key);
      cache' := cache[key := value];
      if |evictions| > config.maxStateKeys {
        var oldest := evictions[|evictions| - 1];
        evictions := evictions[..|evictions| - 1];
        if oldest !in cache' {
          assertionFailed := true;
        }
        cache' := cache' - {oldest};
      }
    }

    /** The part of `add` that puts the key at the front of the list; `cache` is the one before the insertion. */
    method ListFirst(cache: map<Bytes, Bytes>, key: Bytes)
      modifies this`evictions, this`peeks, this`misread
      ensures evictions == Listed(Recent(cache, old(evictions), old(Traces())), key)
      ensures Traces() == Traced(Recent(cache, old(evictions), old(Traces())), key)
    {
      var replaced := key in cache;
      if replaced {
        var read := stray(peeks);
        peeks, misread := peeks + 1, misread || read != key;
        evictions := Remove(evictions, read);
      }
      evictions := [key] + evictions;
    }

    /** `add` during `on_new_block`. */
    method AddToLatest(cache: map<Bytes, Bytes>, e: KeyValue, view: ViewId) returns (cache': map<Bytes, Bytes>)
      requires view == latestView
      modifies this`evictions, this`assertionFailed, this`peeks, this`misread
      ensures Recent(cache', evictions, Traces())
           == PutAll(config.maxStateKeys, Recent(cache, old(evictions), old(Traces())), [e])
    {
      PutAllOfSingle(config.maxStateKeys, Recent(cache, evictions, Traces()), e);
      cache' := Add(cache, e.key, e.value, view);
    }

    /** `get_root` */
    method GetRoot(view: ViewId) returns (root: Root)
      modifies this`roots, this`created
      ensures root == RootOf(old(State()), view)
      ensures roots == old(roots)[view := root]
      ensures created == if view in old(roots) then old(created) else old(created) + 1
    {
      if view !in roots {
        roots := roots[view := Root(created, map[], false, false)];
        created := created + 1;
      }
      assert roots == roots[view := roots[view]];
      return roots[view];
    }

    /** `get_view`: whether a view can be had, creating the root of an unknown one. */
    method GetView(view: ViewId) returns (ready: bool)
      modifies this`roots, this`created
      ensures ready <==> view in old(roots) && old(roots)[view].ready
      ensures roots == old(roots)[view := RootOf(old(State()), view)]
      ensures ViewsOf(State()) == WithRoot(ViewsOf(old(State())), view)
    {
      var root := GetRoot(view);
      MarksOfUpdate(old(roots), view, root);
      assert view in old(roots) ==> roots == old(roots);
      return root.ready;
    }

    /** The first part of `get`, under the shared lock. */
    method Find(view: ViewId, key: Bytes) returns (found: Found)
      modifies this`evictions
      ensures found == if view !in roots then Gone
                       else if key in roots[view].cache then Hit(roots[view].cache[key])
                       else Miss(RootId(view, roots[view].serial))
      ensures evictions == if found.Hit? && view == latestView then Touch(old(evictions), key) else old(evictions)
    {
      if view !in roots {
        return Gone;
      }
      if key !in roots[view].cache {
        return Miss(RootId(view, roots[view].serial));
      }
      if view == latestView {
        evictions := Remove(evictions, key);
        evictions := [key] + evictions;
      }
      return Hit(roots[view].cache[key]);
    }

    /** The last part of `get`, under the unique lock: add to the root found before a value read from the
        database. That root may have been destroyed since. */
    method Fill(root: RootId, key: Bytes, value: Bytes)
      modifies this
      ensures danglingWrite <==> old(danglingWrite) || !Holds(ViewsOf(old(State())), root)
      ensures !danglingWrite ==> State() == Stored(config.maxStateKeys, old(State()), root.view, Entry(key, value))
    {
      if root.view !in roots || roots[root.view].serial != root.serial {
        Corrupt();
        return;
      }
      var cache := Add(roots[root.view].cache, key, value, root.view);
      roots := roots[root.view := roots[root.view].(cache := cache)];
    }

    /** `evict_roots` */
    method EvictOldRoots(next: ViewId)
      modifies this`roots
      ensures roots == EvictRoots(old(roots), config.maxViews, latestView, next)
    {
      if |roots| <= config.maxViews {
        return;
      }
      if next == 0 {
        roots := map v | v in roots && v == next :: roots[v];
        return;
      }
      var maxViewToDelete := Wrapped(latestView - config.maxViews + 1);
      roots := map v | v in roots && v > maxViewToDelete :: roots[v];
    }

    /** `advance_root`, returning the root the batch is then applied to. */
    method AdvanceRoot(view: ViewId) returns (root: Root)
      modifies this`roots, this`created, this`evictions, this`latestView
      ensures root == AdvancedRoot(old(State()), view)
      ensures State() == Advance(config.maxViews, old(State()), view)
    {
      root := GetRoot(view);
      InheritedByNewRoot(old(roots), view, root);
      root := Inherit(view, root);
      roots := roots[view := root];
      assert roots == old(roots)[view := root];
      EvictOldRoots(view);
      latestView := view;
    }

    /** The part of `advance_root` that gives the root its cache and starts the eviction list. */
    method Inherit(view: ViewId, root: Root) returns (root': Root)
      requires view in roots && roots[view] == root
      modifies this`evictions
      ensures root' == root.(canonical := true, cache := Inherited(roots, view))
      ensures evictions == if Extends(roots, view) then old(evictions) else Descending(Inherited(roots, view).Keys)
    {
      root' := root;
      var prev := Wrapped(view - 1);
      if prev in roots && roots[prev].canonical {
        root' := root'.(cache := roots[prev].cache);
      } else {
        evictions := ListKeys(root'.cache);
      }
      root' := root'.(canonical := true);
    }

    /** The treatment of one account change by `on_new_block`. */
    method ProcessChange(cache: map<Bytes, Bytes>, change: AccountChange, view: ViewId)
      returns (cache': map<Bytes, Bytes>)
      requires view == latestView
      modifies this`evictions, this`assertionFailed, this`peeks, this`misread
      ensures Recent(cache', evictions, Traces())
           == PutAll(config.maxStateKeys, Recent(cache, old(evictions), old(Traces())),
                     ChangeEntries(change, ReadingOf(config.withStorage)))
    {
      cache' := cache;
      match change.action {
        case UPSERT =>
          cache' := AddToLatest(cache, Entry(change.address, change.data), view);
        case UPSERT_CODE =>
          cache' := AddToLatest(cache, Entry(change.address, change.data), view);
        case REMOVE =>
          cache' := AddToLatest(cache, Entry(change.address, []), view);
        case STORAGE =>
          if config.withStorage && |change.storageChanges| > 0 {
            cache' := ProcessStorage(cache, change, view);
          }
        case _ =>
      }
    }

    /** process_storage_change */
    method ProcessStorage(cache: map<Bytes, Bytes>, change: AccountChange, view: ViewId)
      returns (cache': map<Bytes, Bytes>)
      requires view == latestView
      modifies this`evictions, this`assertionFailed, this`peeks, this`misread
      ensures Recent(cache', evictions, Traces())
           == PutAll(config.maxStateKeys, Recent(cache, old(evictions), old(Traces())),
                     StorageEntries(change, |change.storageChanges|))
    {
      ghost var r, done := Recent(cache, evictions, Traces()), [];
      cache' := cache;
      for i := 0 to |change.storageChanges|
        invariant done == StorageEntries(change, i)
        invariant Recent(cache', evictions, Traces()) == PutAll(config.maxStateKeys, r, done)
      {
        var storageChange := change.storageChanges[i];
        var e := Entry(StorageKey(change.address, change.incarnation, storageChange.location), storageChange.data);
        OneMoreEntry(change, i, e, done);
        PutAllOfConcatenation(config.maxStateKeys, r, done, [e]);
        cache' := AddToLatest(cache', e, view);
        done := done + [e];
      }
    }

    /** All the account changes of one block. */
    method ProcessBlock(cache: map<Bytes, Bytes>, changes: seq<AccountChange>, view: ViewId)
      returns (cache': map<Bytes, Bytes>)
      requires view == latestView
      modifies this`evictions, this`assertionFailed, this`peeks, this`misread
      ensures Recent(cache', evictions, Traces())
           == PutAll(config.maxStateKeys, Recent(cache, old(evictions), old(Traces())),
                     BlockEntries(changes, ReadingOf(config.withStorage)))
    {
      ghost var r, reading := Recent(cache, evictions, Traces()), ReadingOf(config.withStorage);
      cache' := cache;
      for i := 0 to |changes|
        invariant Recent(cache', evictions, Traces())
               == PutAll(config.maxStateKeys, r, BlockEntries(changes[..i], reading))
      {
        cache' := ProcessChange(cache', changes[i], view);
        PutAllOfConcatenation(
          config.maxStateKeys, r, BlockEntries(changes[..i], reading), ChangeEntries(changes[i], reading));
        assert changes[..i + 1][..i] == changes[..i];
      }
      assert changes[..|changes|] == changes;
    }

    /** All the blocks of a batch. */
    method ProcessBatch(cache: map<Bytes, Bytes>, batch: Batch, view: ViewId) returns (cache': map<Bytes, Bytes>)
      requires view == latestView
      modifies this`evictions, this`assertionFailed, this`peeks, this`misread
      ensures Recent(cache', evictions, Traces())
           == PutAll(config.maxStateKeys, Recent(cache, old(evictions), old(Traces())),
                     BatchEntries(batch, ReadingOf(config.withStorage)))
    {
      ghost var r, reading := Recent(cache, evictions, Traces()), ReadingOf(config.withStorage);
      cache' := cache;
      for i := 0 to |batch|
        invariant Recent(cache', evictions, Traces())
               == PutAll(config.maxStateKeys, r, BatchEntries(batch[..i], reading))
      {
        cache' := ProcessBlock(cache', batch[i], view);
        PutAllOfConcatenation(
          config.maxStateKeys, r, BatchEntries(batch[..i], reading), BlockEntries(batch[i], reading));
        assert batch[..i + 1][..i] == batch[..i];
      }
      assert batch[..|batch|] == batch;
    }

    /** The loop of `on_new_block` and what follows it. */
    method WriteBatch(view: ViewId, root: Root, batch: Batch)
      requires view == latestView
      modifies this`roots, this`evictions, this`assertionFailed, this`peeks, this`misread
      ensures State() == Written(config, old(State()), view, root, batch)
    {
      var cache := ProcessBatch(root.cache, batch, view);
      roots := roots[view := root.(cache := cache, ready := true)];
    }

    /** `on_new_block` of a batch that is not empty. */
    method Apply(view: ViewId, batch: Batch)
      modifies this
      ensures danglingWrite <==>
                old(danglingWrite) || view !in Advance(config.maxViews, old(State()), view).roots
      ensures !danglingWrite ==> State() == Applied(config, old(State()), view, batch)
    {
      var root := AdvanceRoot(view);
      if view in roots {
        WriteBatch(view, root, batch);
      } else {
        Corrupt();
      }
    }

    /** `on_new_block`. The batch is written to a root that eviction may just have destroyed. Otherwise that
        root, and the eviction list, are what adding the entries of the batch to the inherited cache gives,
        and the other roots are unchanged or evicted. */
    method OnNewBlock(view: ViewId, batch: Batch)
      modifies this
      ensures batch == [] ==> unchanged(this)
      ensures danglingWrite <==>
                old(danglingWrite) || (batch != [] && Loses(config.maxViews, old(roots).Keys, old(latestView), view))
      ensures !danglingWrite && batch != [] ==>
                && State() == Applied(config, old(State()), view, batch)
                && view in roots && roots[view].ready && roots[view].canonical && latestView == view
                && Recent(roots[view].cache, evictions, Traces())
                   == Filled(config, Start(old(State()), view), batch)
      ensures !danglingWrite ==>
                ViewsOf(State()) == AfterStep(config.maxViews, ViewsOf(old(State())), Block(view, batch))
      ensures !danglingWrite ==> forall v | v in roots && v != view :: v in old(roots) && roots[v] == old(roots)[v]
      ensures !danglingWrite && batch != [] && config.maxViews != 0 ==>
                && RootsLeft(config.maxViews, old(roots).Keys + {view}, old(latestView), view, roots.Keys)
                && forall a | IsAccount(a) && a in roots[view].cache ::
                     AccountFound(Flat(batch), a, Inherited(old(roots), view), roots[view].cache[a])
    {
      if |batch| == 0 {
        return;
      }
      if config.maxViews != 0 && !Loses(config.maxViews, roots.Keys, latestView, view) {
        PlainlyAfterBatch(config, State(), view, batch);
      }
      AdvanceLeaves(roots, config.maxViews, latestView, view, AdvancedRoot(State(), view));
      if !Loses(config.maxViews, roots.Keys, latestView, view) {
        AppliedMeans(config, State(), view, batch);
      }
      Apply(view, batch);
    }
  }

  /** The constructor as callers see it: a limit of no views is refused with an exception. */
  method NewStateCache(config: Config, stray: Strays) returns (cache: Option<CoherentStateCache>)
    ensures cache.None? <==> config.maxViews == 0
    ensures cache.Some? ==>
              && fresh(cache.value) && cache.value.config == config
              && cache.value.State() == NewCache(stray) && !cache.value.danglingWrite
  {
    if config.maxViews == 0 {
      return None;
    }
    var c := new CoherentStateCache(config, stray);
    return Some(c);
  }
}
