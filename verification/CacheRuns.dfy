/** What holds of the state cache over whole runs: blocks and reads interleaved in any way. */
module CacheRuns {
  import opened Base
  import opened RecentKeys
  import opened StateChanges
  import opened ChangeMeaning
  import opened CacheViews
  import opened StateCache

  /** What a lookup finds in a given state. */
  function FoundIn(s: Snapshot, view: ViewId, key: Bytes): Found {
    if view !in s.roots then Gone
    else if key in s.roots[view].cache then Hit(s.roots[view].cache[key])
    else Miss(RootId(view, s.roots[view].serial))
  }

  /** The state after a step that writes through no dangling pointer. */
  ghost function Next(config: Config, db: Database, s: Snapshot, step: Step): Snapshot {
    match step
    case Block(view, batch) => if batch == [] then s else Applied(config, s, view, batch)
    case View(view) =>
      s.(roots := s.roots[view := RootOf(s, view)], created := if view in s.roots then s.created else s.created + 1)
    case Lookup(view, key) =>
      if FoundIn(s, view, key).Hit? && view == s.latest then s.(evictions := Touch(s.evictions, key)) else s
    case Store(root, key) =>
      if db(root.view, key) != [] && root.view in s.roots
      then Stored(config.maxStateKeys, s, root.view, Entry(key, db(root.view, key))) else s
  }

  ghost function StateAfter(config: Config, db: Database, s: Snapshot, steps: seq<Step>): Snapshot {
    if steps == [] then s else
      Next(config, db, StateAfter(config, db, s, steps[..|steps| - 1]), steps[|steps| - 1])
  }

  lemma OneMoreNext(config: Config, db: Database, s: Snapshot, steps: seq<Step>, step: Step)
    ensures StateAfter(config, db, s, steps + [step]) == Next(config, db, StateAfter(config, db, s, steps), step)
  {
    assert (steps + [step])[..|steps|] == steps;
  }

  /** Performs one step. */
  method Perform(cache: CoherentStateCache, db: Database, step: Step) returns (found: Found)
    modifies cache
    ensures cache.danglingWrite <==>
              old(cache.danglingWrite) || Dangles(cache.config.maxViews, db, ViewsOf(old(cache.State())), step)
    ensures !cache.danglingWrite ==> cache.State() == Next(cache.config, db, old(cache.State()), step)
    ensures step.Lookup? ==> found == FoundIn(old(cache.State()), step.readView, step.key)
  {
    found := Gone;
    match step {
      case Block(view, batch) =>
        assert MarksOf(cache.roots).Keys == cache.roots.Keys;
        cache.OnNewBlock(view, batch);
      case View(view) =>
        var _ := cache.GetView(view);
      case Lookup(view, key) =>
        found := cache.Find(view, key);
      case Store(root, key) =>
        if db(root.view, key) != [] {
          cache.Fill(root, key, db(root.view, key));
        }
    }
  }

  /** Which roots there are after a step depends on the views alone. */
  lemma NextViews(config: Config, db: Database, s: Snapshot, step: Step)
    requires !Dangles(config.maxViews, db, ViewsOf(s), step)
    ensures ViewsOf(Next(config, db, s, step)) == AfterStep(config.maxViews, ViewsOf(s), step)
  {
    match step
    case Block(view, batch) =>
      assert MarksOf(s.roots).Keys == s.roots.Keys;
      if batch != [] {
        AppliedMeans(config, s, view, batch);
      }
    case View(view) =>
      MarksOfUpdate(s.roots, view, RootOf(s, view));
      if view in s.roots {
        assert s.roots[view := s.roots[view]] == s.roots;
      }
    case Lookup(view, key) =>
    case Store(root, key) =>
      if db(root.view, key) != [] {
        KeepsMarks(s.roots, root.view, Next(config, db, s, step).roots[root.view]);
      }
  }

  lemma {:induction false} RunViews(config: Config, db: Database, s: Snapshot, steps: seq<Step>)
    requires !DanglesIn(config.maxViews, db, ViewsOf(s), steps)
    ensures ViewsOf(StateAfter(config, db, s, steps)) == After(config.maxViews, ViewsOf(s), steps)
  {
    if steps != [] {
      var n := |steps| - 1;
      RunViews(config, db, s, steps[..n]);
      NextViews(config, db, StateAfter(config, db, s, steps[..n]), steps[n]);
    }
  }

  /** Where steps lead: a dangling write has happened exactly when the views foretell it; otherwise the state
      is the expected one. */
  ghost predicate Reached(config: Config, db: Database, s: Snapshot, steps: seq<Step>, dangling: bool, s': Snapshot) {
    && (dangling <==> DanglesIn(config.maxViews, db, ViewsOf(s), steps))
    && (!dangling ==> s' == StateAfter(config, db, s, steps))
  }

  /** Up to the first dangling write, lookups find what is there. */
  ghost predicate Finds(config: Config, db: Database, s: Snapshot, steps: seq<Step>, found: seq<Found>) {
    && |found| == |steps|
    && forall i | 0 <= i < |steps| && steps[i].Lookup? :: FindsAt(config, db, s, steps, i, found[i])
  }

  ghost predicate FindsAt(config: Config, db: Database, s: Snapshot, steps: seq<Step>, i: nat, found: Found)
    requires i < |steps| && steps[i].Lookup?
  {
    DanglesIn(config.maxViews, db, ViewsOf(s), steps[..i]) ||
    found == FoundIn(StateAfter(config, db, s, steps[..i]), steps[i].readView, steps[i].key)
  }

  lemma ReachedByOneMore(config: Config, db: Database, s: Snapshot, steps: seq<Step>, dangling: bool, s': Snapshot,
                         step: Step, dangling': bool, s'': Snapshot)
    requires Reached(config, db, s, steps, dangling, s')
    requires dangling' <==> dangling || Dangles(config.maxViews, db, ViewsOf(s'), step)
    requires !dangling' ==> s'' == Next(config, db, s', step)
    ensures Reached(config, db, s, steps + [step], dangling', s'')
  {
    if !dangling {
      RunViews(config, db, s, steps);
    }
    OneMoreStep(config.maxViews, db, ViewsOf(s), steps, step);
    OneMoreNext(config, db, s, steps, step);
  }

  lemma FindsOneMore(config: Config, db: Database, s: Snapshot, steps: seq<Step>, found: seq<Found>,
                     dangling: bool, s': Snapshot, step: Step, result: Found)
    requires Finds(config, db, s, steps, found) && Reached(config, db, s, steps, dangling, s')
    requires step.Lookup? ==> result == FoundIn(s', step.readView, step.key)
    ensures Finds(config, db, s, steps + [step], found + [result])
  {
    var steps', found' := steps + [step], found + [result];
    forall i | 0 <= i < |steps'| && steps'[i].Lookup?
      ensures FindsAt(config, db, s, steps', i, found'[i])
    {
      assert steps'[..i] == steps[..i];
      if i < |steps| {
        assert FindsAt(config, db, s, steps, i, found[i]);
      } else {
        assert steps[..i] == steps;
      }
    }
  }

  /** Both, for the steps done so far. */
  ghost predicate Driven(config: Config, db: Database, s: Snapshot, done: seq<Step>, found: seq<Found>,
                         dangling: bool, s': Snapshot)
  {
    Reached(config, db, s, done, dangling, s') && Finds(config, db, s, done, found)
  }

  lemma DrivenOneMore(config: Config, db: Database, s: Snapshot, done: seq<Step>, found: seq<Found>,
                      dangling: bool, s': Snapshot, step: Step, result: Found, dangling': bool, s'': Snapshot)
    requires Driven(config, db, s, done, found, dangling, s')
    requires dangling' <==> dangling || Dangles(config.maxViews, db, ViewsOf(s'), step)
    requires !dangling' ==> s'' == Next(config, db, s', step)
    requires step.Lookup? ==> result == FoundIn(s', step.readView, step.key)
    ensures Driven(config, db, s, done + [step], found + [result], dangling', s'')
  {
    ReachedByOneMore(config, db, s, done, dangling, s', step, dangling', s'');
    FindsOneMore(config, db, s, done, found, dangling, s', step, result);
  }

  /** Performs any steps. */
  method Drive(cache: CoherentStateCache, db: Database, steps: seq<Step>) returns (found: seq<Found>)
    requires !cache.danglingWrite
    modifies cache
    ensures Reached(cache.config, db, old(cache.State()), steps, cache.danglingWrite, cache.State())
    ensures Finds(cache.config, db, old(cache.State()), steps, found)
  {
    ghost var s, done := cache.State(), [];
    found := [];
    for i := 0 to |steps|
      invariant done == steps[..i]
      invariant Driven(cache.config, db, s, done, found, cache.danglingWrite, cache.State())
    {
      ghost var dangling, s' := cache.danglingWrite, cache.State();
      var result := Perform(cache, db, steps[i]);
      DrivenOneMore(cache.config, db, s, done, found, dangling, s', steps[i], result,
                    cache.danglingWrite, cache.State());
      done, found := done + [steps[i]], found + [result];
    }
    assert done == steps;
  }

  // ---------------------------------------------------------------- coherence

  /** Every cached account is the one the database holds in that view; with `slots`, so is every storage
      slot. */
  ghost predicate Coherent(db: Database, roots: map<ViewId, Root>, slots: bool) {
    forall v, k | v in roots && k in roots[v].cache && (slots || IsAccount(k)) :: roots[v].cache[k] == db(v, k)
  }

  /** A batch is faithful when it means, for every key, what the view has instead of the preceding one. */
  ghost predicate Faithful(db: Database, view: ViewId, batch: Batch) {
    forall k: Bytes :: Means(Flat(batch), k, db(Wrapped(view - 1), k), db(view, k))
  }

  /** That is, all its entries together account for every difference. */
  lemma FaithfulIff(db: Database, view: ViewId, batch: Batch)
    ensures Faithful(db, view, batch) <==> Accounted(db, view, batch)
  {
    forall k: Bytes
      ensures Means(Flat(batch), k, db(Wrapped(view - 1), k), db(view, k)) <==>
              db(view, k) == ValueAfter(BatchEffect(batch, Whole), k, db(Wrapped(view - 1), k))
    {
      BatchMeansIff(batch, k, db(Wrapped(view - 1), k), db(view, k));
    }
  }

  ghost predicate Accounted(db: Database, view: ViewId, batch: Batch) {
    forall k: Bytes :: db(view, k) == ValueAfter(BatchEffect(batch, Whole), k, db(Wrapped(view - 1), k))
  }

  ghost predicate FaithfulStep(db: Database, step: Step) {
    step.Block? ==> Faithful(db, step.view, step.batch)
  }

  ghost predicate AllFaithful(db: Database, steps: seq<Step>) {
    forall i | 0 <= i < |steps| :: FaithfulStep(db, steps[i])
  }

  /** The cache takes in all that batches say of storage: it is configured to, and they say it explicitly. */
  predicate TakesStorage(config: Config, steps: seq<Step>) {
    config.withStorage && forall i | 0 <= i < |steps| && steps[i].Block? :: Explicit(steps[i].batch)
  }

  /** What the inherited cache holds for a key the batch does not set is right for the new view. */
  lemma InheritedIsRight(db: Database, s: Snapshot, view: ViewId, batch: Batch, slots: bool, k: Bytes)
    requires Coherent(db, s.roots, slots) && Faithful(db, view, batch) && (slots || IsAccount(k))
    requires k in Inherited(s.roots, view) && k !in BatchEffect(batch, Whole)
    ensures Inherited(s.roots, view)[k] == db(view, k)
  {
    FaithfulIff(db, view, batch);
    assert db(view, k) == db(Wrapped(view - 1), k);
  }

  lemma BatchKeepsCoherent(config: Config, db: Database, s: Snapshot, view: ViewId, batch: Batch, slots: bool)
    requires Coherent(db, s.roots, slots) && Faithful(db, view, batch)
    requires !Loses(config.maxViews, s.roots.Keys, s.latest, view)
    requires slots ==> config.withStorage && Explicit(batch)
    ensures Coherent(db, Applied(config, s, view, batch).roots, slots)
  {
    var s', reading := Applied(config, s, view, batch), ReadingOf(config.withStorage);
    FaithfulIff(db, view, batch);
    AppliedMeans(config, s, view, batch);
    PutAllAddsNothing(config.maxStateKeys, Start(s, view), BatchEntries(batch, reading));
    BatchAccountsAgree(batch, reading);
    if slots {
      ExplicitIffWhole(batch);
    }
    forall v, k | v in s'.roots && k in s'.roots[v].cache && (slots || IsAccount(k))
      ensures s'.roots[v].cache[k] == db(v, k)
    {
      if v == view && k !in BatchEffect(batch, Whole) {
        assert k !in BatchEffect(batch, reading);
        InheritedIsRight(db, s, view, batch, slots, k);
      }
    }
  }

  lemma NextCoherent(config: Config, db: Database, s: Snapshot, step: Step, slots: bool)
    requires Coherent(db, s.roots, slots) && FaithfulStep(db, step)
    requires !Dangles(config.maxViews, db, ViewsOf(s), step)
    requires slots ==> TakesStorage(config, [step])
    ensures Coherent(db, Next(config, db, s, step).roots, slots)
  {
    match step
    case Block(view, batch) =>
      assert MarksOf(s.roots).Keys == s.roots.Keys;
      assert slots ==> [step][0].Block? && Explicit([step][0].batch);
      if batch != [] {
        BatchKeepsCoherent(config, db, s, view, batch, slots);
      }
    case _ =>
  }

  /** Safety over whole runs: however blocks and reads interleave, up to the first dangling write every
      cached account is right; every cached slot is, too, if the cache takes in storage. */
  lemma {:induction false} RunCoherent(config: Config, db: Database, s: Snapshot, steps: seq<Step>, slots: bool)
    requires Coherent(db, s.roots, slots) && AllFaithful(db, steps)
    requires !DanglesIn(config.maxViews, db, ViewsOf(s), steps)
    requires slots ==> TakesStorage(config, steps)
    ensures Coherent(db, StateAfter(config, db, s, steps).roots, slots)
  {
    if steps != [] {
      var n := |steps| - 1;
      RunCoherent(config, db, s, steps[..n], slots);
      RunViews(config, db, s, steps[..n]);
      NextCoherent(config, db, StateAfter(config, db, s, steps[..n]), steps[n], slots);
    }
  }

  /** From construction on, whatever the steps: a hit on an account is the value the database holds in that
      view, and so is a hit on a slot if the cache takes in storage, unless a dangling write came before. */
  method Run(config: Config, stray: Strays, db: Database, steps: seq<Step>) returns (found: Option<seq<Found>>)
    requires AllFaithful(db, steps)
    ensures found.None? <==> config.maxViews == 0
    ensures found.Some? ==> |found.value| == |steps|
    ensures found.Some? ==>
              forall i | 0 <= i < |steps| && steps[i].Lookup? && found.value[i].Hit? ::
                && !DanglesIn(config.maxViews, db, NO_VIEWS, steps[..i])
                && (IsAccount(steps[i].key) || TakesStorage(config, steps[..i])) ==>
                  found.value[i].value == db(steps[i].readView, steps[i].key)
  {
    var cache := NewStateCache(config, stray);
    if cache.None? {
      return None;
    }
    assert ViewsOf(NewCache(stray)) == NO_VIEWS;
    var results := Drive(cache.value, db, steps);
    forall i | 0 <= i < |steps| && steps[i].Lookup? && results[i].Hit? &&
               !DanglesIn(config.maxViews, db, NO_VIEWS, steps[..i]) &&
               (IsAccount(steps[i].key) || TakesStorage(config, steps[..i]))
      ensures results[i].value == db(steps[i].readView, steps[i].key)
    {
      assert FindsAt(config, db, NewCache(stray), steps, i, results[i]);
      RunCoherent(config, db, NewCache(stray), steps[..i], TakesStorage(config, steps[..i]));
    }
    return Some(results);
  }

  // ---------------------------------------------------------------- storage changes left out

  /** What the inherited cache holds for a new view, and what on_new_block takes from the batch. */
  function Said(config: Config, s: Snapshot, view: ViewId, batch: Batch): map<Bytes, Bytes> {
    Inherited(s.roots, view) + BatchEffect(batch, ReadingOf(config.withStorage))
  }

  /** The new root holds part of that. */
  lemma FilledSaysWhatWasSaid(config: Config, s: Snapshot, view: ViewId, batch: Batch)
    ensures SubMap(Filled(config, Start(s, view), batch).cache, Said(config, s, view, batch))
  {
    PutAllAddsNothing(config.maxStateKeys, Start(s, view), BatchEntries(batch, ReadingOf(config.withStorage)));
  }

  /** What is said for a key that the batch does not mean to set is right. */
  lemma UnsetIsRight(config: Config, db: Database, s: Snapshot, view: ViewId, batch: Batch, k: Bytes)
    requires Coherent(db, s.roots, true) && Faithful(db, view, batch)
    requires k in Said(config, s, view, batch) && k !in BatchEffect(batch, Whole)
    ensures Said(config, s, view, batch)[k] == db(view, k)
  {
    BatchAccountsAgree(batch, ReadingOf(config.withStorage));
    InheritedIsRight(db, s, view, batch, true, k);
  }

  /** A cached slot of the new view is right exactly when the batch does not set it, or was read as it means it. */
  lemma SlotIsRightIff(config: Config, db: Database, s: Snapshot, view: ViewId, batch: Batch, slot: Bytes)
    requires Coherent(db, s.roots, true) && Faithful(db, view, batch)
    requires slot in Said(config, s, view, batch)
    ensures
      var whole := BatchEffect(batch, Whole);
      Said(config, s, view, batch)[slot] == db(view, slot) <==>
      (slot in whole ==> Said(config, s, view, batch)[slot] == whole[slot])
  {
    FaithfulIff(db, view, batch);
    if slot !in BatchEffect(batch, Whole) {
      UnsetIsRight(config, db, s, view, batch, slot);
    }
  }

  /** However the cache is configured and however full it is: it stays coherent over a block exactly when each
      storage slot that stays, and that the batch sets, is said to have the value the batch means: by the batch as
      it was read, or by the inherited cache if the change was left out. */
  lemma BlockCoherentIff(config: Config, db: Database, s: Snapshot, view: ViewId, batch: Batch)
    requires Coherent(db, s.roots, true) && Faithful(db, view, batch)
    requires !Loses(config.maxViews, s.roots.Keys, s.latest, view)
    ensures
      var whole, said := BatchEffect(batch, Whole), Said(config, s, view, batch);
      Coherent(db, Applied(config, s, view, batch).roots, true) <==>
      forall slot | slot in said && slot in whole && !IsAccount(slot) ::
        slot in Filled(config, Start(s, view), batch).cache ==> said[slot] == whole[slot]
  {
    var whole, said := BatchEffect(batch, Whole), Said(config, s, view, batch);
    var s', cache := Applied(config, s, view, batch), Filled(config, Start(s, view), batch).cache;
    AppliedMeans(config, s, view, batch);
    BatchKeepsCoherent(config, db, s, view, batch, false);
    FilledSaysWhatWasSaid(config, s, view, batch);
    forall k | k in cache
      ensures said[k] == db(view, k) <==> (k in whole ==> said[k] == whole[k])
    {
      SlotIsRightIff(config, db, s, view, batch, k);
    }
    if forall slot | slot in said && slot in whole && !IsAccount(slot) :: slot in cache ==> said[slot] == whole[slot] {
      forall v, k | v in s'.roots && k in s'.roots[v].cache
        ensures s'.roots[v].cache[k] == db(v, k)
      {
        if v != view {
          assert s'.roots[v] == s.roots[v];
        }
      }
    }
  }

  /** Configured without storage, the cache stays coherent over a block exactly when the batch leaves every
      slot that stays cached at the value it was inherited with. */
  lemma SkippedStorageCoherentIff(config: Config, db: Database, s: Snapshot, view: ViewId, batch: Batch)
    requires !config.withStorage && Coherent(db, s.roots, true) && Faithful(db, view, batch)
    requires !Loses(config.maxViews, s.roots.Keys, s.latest, view)
    ensures
      var whole, inherited := BatchEffect(batch, Whole), Inherited(s.roots, view);
      Coherent(db, Applied(config, s, view, batch).roots, true) <==>
      forall slot | slot in inherited && slot in whole && !IsAccount(slot) ::
        slot in Filled(config, Start(s, view), batch).cache ==> inherited[slot] == whole[slot]
  {
    BlockCoherentIff(config, db, s, view, batch);
    NoSlotsWithoutStorage(batch);
    forall slot | !IsAccount(slot)
      ensures slot !in BatchEffect(batch, WithoutStorage)
    {
    }
  }

  /** Which inherited keys stay cached that the batch, as it was read, does not set: those with fewer than the
      limit of keys used since or before them. */
  lemma SlotStaysIff(config: Config, s: Snapshot, view: ViewId, batch: Batch, i: nat)
    requires Tracks(Start(s, view).keys, Inherited(s.roots, view))
    requires !Filled(config, Start(s, view), batch).trace.misread
    requires i < |Start(s, view).keys| <= config.maxStateKeys
    requires Start(s, view).keys[i] !in BatchEffect(batch, ReadingOf(config.withStorage))
    ensures
      var keys := Start(s, view).keys;
      keys[i] in Filled(config, Start(s, view), batch).cache <==>
      |BatchEffect(batch, ReadingOf(config.withStorage)).Keys + Keys(keys[..i])| < config.maxStateKeys
  {
    StaysIff(config.maxStateKeys, Start(s, view), BatchEntries(batch, ReadingOf(config.withStorage)), i);
  }
}
