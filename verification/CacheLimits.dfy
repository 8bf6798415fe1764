/** The bound on the keys of the latest view, and the assertion on which it rests, over whole runs. */
module CacheLimits {
  import opened Base
  import opened RecentKeys
  import opened KeyOrder
  import opened StateChanges
  import opened CacheViews
  import opened StateCache
  import opened CacheRuns

  /** The eviction list holds each key of the latest view's cache exactly once. */
  ghost predicate InStep(s: Snapshot) {
    if s.latest in s.roots then Tracks(s.evictions, s.roots[s.latest].cache) else s.evictions == []
  }

  predicate ExtendsView(v: Views, view: ViewId) {
    var prev := Wrapped(view - 1);
    prev in v.marks && v.marks[prev].canonical
  }

  /** A batch for the successor of a view reached by a batch comes while that view is the latest: no batch is
      repeated, or comes late. */
  predicate Orderly(v: Views, step: Step) {
    step.Block? && step.batch != [] && ExtendsView(v, step.view) ==> Wrapped(step.view - 1) == v.latest
  }

  /** A batch that does not extend such a view is for the latest view or for one that has not been read before. */
  predicate Unread(v: Views, step: Step) {
    step.Block? && step.batch != [] && !ExtendsView(v, step.view) ==>
      step.view !in v.marks || step.view == v.latest
  }

  predicate AllOrderly(maxViews: uint64, v: Views, steps: seq<Step>) {
    forall i | 0 <= i < |steps| :: Orderly(After(maxViews, v, steps[..i]), steps[i])
  }

  predicate AllUnread(maxViews: uint64, v: Views, steps: seq<Step>) {
    forall i | 0 <= i < |steps| :: Unread(After(maxViews, v, steps[..i]), steps[i])
  }

  /** After a batch the view it makes the latest has too many keys exactly when those it starts from are too
      many, by more than the additions of the batch make up for; whether or not the list is in step. */
  lemma OverfullIff(config: Config, s: Snapshot, view: ViewId, batch: Batch)
    requires !Loses(config.maxViews, s.roots.Keys, s.latest, view)
    ensures
      var s', r := Applied(config, s, view, batch), Start(s, view);
      && s'.latest == view && view in s'.roots
      && (|s'.roots[view].cache.Keys| > config.maxStateKeys <==>
            |Inherited(s.roots, view).Keys| - config.maxStateKeys
            > -Growths(config.maxStateKeys, r, BatchEntries(batch, ReadingOf(config.withStorage))))
  {
    AppliedMeans(config, s, view, batch);
    PutAllSize(config.maxStateKeys, Start(s, view), BatchEntries(batch, ReadingOf(config.withStorage)));
  }

  lemma StartInStep(s: Snapshot, view: ViewId, batch: Batch)
    requires InStep(s) && batch != [] && Orderly(ViewsOf(s), Block(view, batch))
    ensures Tracks(Start(s, view).keys, Start(s, view).cache)
    ensures Unread(ViewsOf(s), Block(view, batch)) ==> |Start(s, view).keys| <= |s.evictions|
  {
    assert ExtendsView(ViewsOf(s), view) <==> Extends(s.roots, view);
    if !Extends(s.roots, view) {
      DescendingTracks(Inherited(s.roots, view));
      TracksLength(Start(s, view).keys, Start(s, view).cache);
      if view in s.roots && view == s.latest {
        TracksLength(s.evictions, s.roots[view].cache);
      }
    }
  }

  lemma {:induction false} PutAllMisreadStays(limit: nat, r: Recent<Bytes, Bytes>, entries: seq<KeyValue>)
    ensures r.trace.misread ==> PutAll(limit, r, entries).trace.misread
  {
    if entries != [] {
      PutAllMisreadStays(limit, r, entries[..|entries| - 1]);
    }
  }

  lemma NextMisreadStays(config: Config, db: Database, s: Snapshot, step: Step)
    ensures s.trace.misread ==> Next(config, db, s, step).trace.misread
  {
    if step.Block? && step.batch != [] {
      PutAllMisreadStays(config.maxStateKeys, Start(s, step.view),
                         BatchEntries(step.batch, ReadingOf(config.withStorage)));
    }
  }

  /** Every step that is no dangling write, no misread and no disorderly batch keeps the list in step and the
      assertion true; and no batch for a view read before, the limit. */
  lemma NextInStep(config: Config, db: Database, s: Snapshot, step: Step)
    requires InStep(s) && Orderly(ViewsOf(s), step) && !Dangles(config.maxViews, db, ViewsOf(s), step)
    requires !Next(config, db, s, step).trace.misread
    ensures
      var s' := Next(config, db, s, step);
      && InStep(s') && s'.trace.failed == s.trace.failed
      && (|s.evictions| <= config.maxStateKeys && Unread(ViewsOf(s), step) ==> |s'.evictions| <= config.maxStateKeys)
  {
    match step
    case Block(view, batch) =>
      if batch != [] {
        assert MarksOf(s.roots).Keys == s.roots.Keys;
        StartInStep(s, view, batch);
        AppliedMeans(config, s, view, batch);
        PutAllTracks(config.maxStateKeys, Start(s, view), BatchEntries(batch, ReadingOf(config.withStorage)));
      }
    case View(view) =>
      if view in s.roots {
        assert s.roots[view := s.roots[view]] == s.roots;
      }
    case Lookup(view, key) =>
      if FoundIn(s, view, key).Hit? && view == s.latest {
        var cache := s.roots[view].cache;
        TouchTracks(s.evictions, cache, key, cache[key]);
        assert cache[key := cache[key]] == cache;
      }
    case Store(root, key) =>
      if root.view == s.latest && db(root.view, key) != [] {
        PutTracks(config.maxStateKeys, Recent(s.roots[root.view].cache, s.evictions, s.trace),
                  Entry(key, db(root.view, key)));
      }
  }

  lemma {:induction false} RunInStep(config: Config, db: Database, s: Snapshot, steps: seq<Step>)
    requires InStep(s) && !DanglesIn(config.maxViews, db, ViewsOf(s), steps)
    requires AllOrderly(config.maxViews, ViewsOf(s), steps) && !StateAfter(config, db, s, steps).trace.misread
    ensures
      var s' := StateAfter(config, db, s, steps);
      && InStep(s') && s'.trace.failed == s.trace.failed
      && (|s.evictions| <= config.maxStateKeys && AllUnread(config.maxViews, ViewsOf(s), steps) ==>
            |s'.evictions| <= config.maxStateKeys)
  {
    if steps != [] {
      var n := |steps| - 1;
      assert forall i | 0 <= i < n :: steps[..n][..i] == steps[..i] && steps[..n][i] == steps[i];
      NextMisreadStays(config, db, StateAfter(config, db, s, steps[..n]), steps[n]);
      RunInStep(config, db, s, steps[..n]);
      RunViews(config, db, s, steps[..n]);
      NextInStep(config, db, StateAfter(config, db, s, steps[..n]), steps[n]);
    }
  }

  /** From construction on, at any view id and with any reads: as long as batches are orderly, none is lost and
      every key read through an erased entry is the erased one, the assertion never fails; and if moreover no view
      is read before its batch, unless it extends the latest or is the latest, the latest view never has more keys
      than the limit. */
  method RunInOrder(config: Config, stray: Strays, db: Database, steps: seq<Step>)
    returns (latestKeys: nat, assertionFailed: bool)
    ensures && !DanglesIn(config.maxViews, db, NO_VIEWS, steps)
            && !StateAfter(config, db, NewCache(stray), steps).trace.misread
            && AllOrderly(config.maxViews, NO_VIEWS, steps) ==>
              && !assertionFailed
              && (AllUnread(config.maxViews, NO_VIEWS, steps) ==> latestKeys <= config.maxStateKeys)
  {
    var created := NewStateCache(config, stray);
    if created.None? {
      return 0, false;
    }
    var cache := created.value;
    assert ViewsOf(NewCache(stray)) == NO_VIEWS;
    var _ := Drive(cache, db, steps);
    latestKeys := if cache.latestView in cache.roots then |cache.roots[cache.latestView].cache| else 0;
    assertionFailed := cache.assertionFailed;
    if !cache.danglingWrite && !cache.misread && AllOrderly(config.maxViews, NO_VIEWS, steps) {
      RunInStep(config, db, NewCache(stray), steps);
      if cache.latestView in cache.roots {
        TracksLength(cache.evictions, cache.roots[cache.latestView].cache);
        assert |cache.roots[cache.latestView].cache.Keys| == latestKeys;
      }
    }
  }
}
