/** Reads through the cache, other steps taking place between their locked sections. */
module CachedReads {
  import opened Base
  import opened StateChanges
  import opened CacheViews
  import opened StateCache
  import opened CacheRuns

  /** What a read finds when the view has a ready root: its lookup comes after the steps `afterView`. */
  ghost function ReadFinds(
    config: Config, db: Database, s: Snapshot, view: ViewId, key: Bytes, afterView: seq<Step>): Found
  {
    FoundIn(StateAfter(config, db, s, afterView), view, key)
  }

  /** The root a miss found is destroyed, or memory was corrupted, before the miss stores its value. */
  predicate StoreDangles(maxViews: uint64, db: Database, v: Views, root: RootId, key: Bytes, afterMiss: seq<Step>) {
    db(root.view, key) != [] &&
    (DanglesIn(maxViews, db, v, afterMiss) || !Holds(After(maxViews, v, afterMiss), root))
  }

  /** `CoherentStateCache::get` after its lookup missed. */
  method ReadMissed(cache: CoherentStateCache, db: Database, root: RootId, key: Bytes, afterMiss: seq<Step>)
    returns (value: Bytes)
    requires !cache.danglingWrite && Holds(ViewsOf(cache.State()), root)
    modifies cache
    ensures cache.danglingWrite <==>
              StoreDangles(cache.config.maxViews, db, ViewsOf(old(cache.State())), root, key, afterMiss)
    ensures value == db(root.view, key)
    ensures !cache.danglingWrite ==>
              cache.State() == if value == [] then old(cache.State())
                               else StateAfter(cache.config, db, old(cache.State()), afterMiss + [Store(root, key)])
  {
    value := db(root.view, key);
    if value == [] {
      return;
    }
    ghost var s := cache.State();
    var _ := Drive(cache, db, afterMiss);
    if !cache.danglingWrite {
      RunViews(cache.config, db, s, afterMiss);
      OneMoreNext(cache.config, db, s, afterMiss, Store(root, key));
    }
    cache.Fill(root, key, value);
  }

  lemma StoreKeepsCoherent(config: Config, db: Database, s: Snapshot, root: RootId, key: Bytes, afterMiss: seq<Step>)
    requires Coherent(db, s.roots, !IsAccount(key)) && db(root.view, key) != []
    requires !StoreDangles(config.maxViews, db, ViewsOf(s), root, key, afterMiss)
    ensures AllFaithful(db, afterMiss) && (IsAccount(key) || TakesStorage(config, afterMiss)) ==>
              Coherent(db, StateAfter(config, db, s, afterMiss + [Store(root, key)]).roots, !IsAccount(key))
  {
    if AllFaithful(db, afterMiss) && (IsAccount(key) || TakesStorage(config, afterMiss)) {
      var step := Store(root, key);
      RunCoherent(config, db, s, afterMiss, !IsAccount(key));
      RunViews(config, db, s, afterMiss);
      OneMoreNext(config, db, s, afterMiss, step);
      if !IsAccount(key) {
        assert config.withStorage && !step.Block?;
      }
      NextCoherent(config, db, StateAfter(config, db, s, afterMiss), step, !IsAccount(key));
    }
  }

  /** The answer of a read, given whether the view could be had and what the lookup found. */
  function Answer(db: Database, view: ViewId, key: Bytes, ready: bool, found: Found): Bytes {
    if !ready then db(view, key)
    else match found
      case Gone => []
      case Hit(cached) => cached
      case Miss(_) => db(view, key)
  }

  /** What is known of a read: with a ready root, its lookup finds what is there after `afterView`; nothing is
      found exactly when the view has no root then; and a write dangles exactly when the view ids foretell it. */
  ghost predicate ReadDone(config: Config, db: Database, s: Snapshot, view: ViewId, key: Bytes,
                           afterView: seq<Step>, afterMiss: seq<Step>, value: Bytes, found: Found, dangling: bool)
  {
    var ready := view in s.roots && s.roots[view].ready;
    var v := After(config.maxViews, ViewsOf(s), afterView);
    && (!dangling ==> value == Answer(db, view, key, ready, found))
    && (dangling <==>
          && ready
          && (|| DanglesIn(config.maxViews, db, ViewsOf(s), afterView)
              || (found.Miss? && StoreDangles(config.maxViews, db, v, found.root, key, afterMiss))))
    && (ready && !DanglesIn(config.maxViews, db, ViewsOf(s), afterView) ==>
          && found == ReadFinds(config, db, s, view, key, afterView)
          && (found.Gone? <==> view !in v.marks))
  }

  /** On a coherent cache, with a ready root for the view, the answer is right exactly when the view still has a
      root after the steps that come before the lookup, or the database has no value. */
  lemma ReadIsRightIff(config: Config, db: Database, s: Snapshot, view: ViewId, key: Bytes,
                       afterView: seq<Step>, afterMiss: seq<Step>, value: Bytes, found: Found)
    requires ReadDone(config, db, s, view, key, afterView, afterMiss, value, found, false)
    requires Coherent(db, s.roots, !IsAccount(key)) && AllFaithful(db, afterView)
    requires IsAccount(key) || TakesStorage(config, afterView)
    ensures
      var ready := view in s.roots && s.roots[view].ready;
      var v := After(config.maxViews, ViewsOf(s), afterView);
      && (value == db(view, key) <==> !ready || view in v.marks || db(view, key) == [])
      && (value != db(view, key) ==> value == [])
  {
    if view in s.roots && s.roots[view].ready {
      RunCoherent(config, db, s, afterView, !IsAccount(key));
    }
  }

  /** Where storage changes may be left out, a slot of the view a batch has just reached is found right exactly
      when it did not stay cached, or the batch does not set it, or it was read as the batch means it. */
  lemma SlotReadIff(config: Config, db: Database, s: Snapshot, view: ViewId, batch: Batch, slot: Bytes)
    requires Coherent(db, s.roots, true) && Faithful(db, view, batch)
    requires !Loses(config.maxViews, s.roots.Keys, s.latest, view)
    ensures
      var whole, said := BatchEffect(batch, Whole), Said(config, s, view, batch);
      var found := FoundIn(Applied(config, s, view, batch), view, slot);
      && (slot in Filled(config, Start(s, view), batch).cache ==> slot in said)
      && (Answer(db, view, slot, true, found) == db(view, slot) <==>
            (slot in Filled(config, Start(s, view), batch).cache && slot in whole ==> said[slot] == whole[slot]))
  {
    var cache := Filled(config, Start(s, view), batch).cache;
    FoundAfterBatch(config, s, view, batch, slot);
    FilledSaysWhatWasSaid(config, s, view, batch);
    if slot in cache {
      assert cache[slot] == Said(config, s, view, batch)[slot];
      SlotIsRightIff(config, db, s, view, batch, slot);
    }
  }

  /** A lookup in the view a batch has just reached finds what the batch left there. */
  lemma FoundAfterBatch(config: Config, s: Snapshot, view: ViewId, batch: Batch, key: Bytes)
    requires !Loses(config.maxViews, s.roots.Keys, s.latest, view)
    ensures
      var found := FoundIn(Applied(config, s, view, batch), view, key);
      var cache := Filled(config, Start(s, view), batch).cache;
      if key in cache then found == Hit(cache[key]) else found.Miss?
  {
    AppliedMeans(config, s, view, batch);
  }

  /** `CachedDatabase::get_one` on the state table. */
  method GetOne(cache: CoherentStateCache, db: Database, view: ViewId, key: Bytes,
                afterView: seq<Step>, afterMiss: seq<Step>)
    returns (value: Bytes, found: Found)
    requires !cache.danglingWrite
    modifies cache
    ensures ReadDone(cache.config, db, old(cache.State()), view, key, afterView, afterMiss,
                     value, found, cache.danglingWrite)
    ensures
      && !cache.danglingWrite && Coherent(db, old(cache.roots), !IsAccount(key))
      && AllFaithful(db, afterView) && AllFaithful(db, afterMiss)
      && (IsAccount(key) || (TakesStorage(cache.config, afterView) && TakesStorage(cache.config, afterMiss))) ==>
        && Coherent(db, cache.roots, !IsAccount(key))
        && var ready := view in old(cache.roots) && old(cache.roots)[view].ready;
           var v := After(cache.config.maxViews, ViewsOf(old(cache.State())), afterView);
           (value == db(view, key) <==> !ready || view in v.marks || db(view, key) == [])
  {
    ghost var s := cache.State();
    value, found := Read(cache, db, view, key, afterView, afterMiss);
    if && !cache.danglingWrite && Coherent(db, s.roots, !IsAccount(key)) && AllFaithful(db, afterView)
       && (IsAccount(key) || TakesStorage(cache.config, afterView))
    {
      ReadIsRightIff(cache.config, db, s, view, key, afterView, afterMiss, value, found);
    }
  }

  method Read(cache: CoherentStateCache, db: Database, view: ViewId, key: Bytes,
              afterView: seq<Step>, afterMiss: seq<Step>)
    returns (value: Bytes, found: Found)
    requires !cache.danglingWrite
    modifies cache
    ensures ReadDone(cache.config, db, old(cache.State()), view, key, afterView, afterMiss,
                     value, found, cache.danglingWrite)
    ensures
      && !cache.danglingWrite && Coherent(db, old(cache.roots), !IsAccount(key))
      && AllFaithful(db, afterView) && AllFaithful(db, afterMiss)
      && (IsAccount(key) || (TakesStorage(cache.config, afterView) && TakesStorage(cache.config, afterMiss))) ==>
        Coherent(db, cache.roots, !IsAccount(key))
  {
    found := Gone;
    ghost var s := cache.State();
    var ready := cache.GetView(view);
    if !ready {
      return db(view, key), found;
    }
    assert cache.State() == s;
    var _ := Drive(cache, db, afterView);
    if cache.danglingWrite {
      return [], found;
    }
    RunViews(cache.config, db, s, afterView);
    if && Coherent(db, s.roots, !IsAccount(key)) && AllFaithful(db, afterView)
       && (IsAccount(key) || TakesStorage(cache.config, afterView))
    {
      RunCoherent(cache.config, db, s, afterView, !IsAccount(key));
    }
    found := cache.Find(view, key);
    match found {
      case Gone => value := [];
      case Hit(cached) => value := cached;
      case Miss(root) =>
        ghost var missed := cache.State();
        value := ReadMissed(cache, db, root, key, afterMiss);
        if !cache.danglingWrite && value != [] && Coherent(db, missed.roots, !IsAccount(key)) {
          StoreKeepsCoherent(cache.config, db, missed, root, key, afterMiss);
        }
    }
  }
}
