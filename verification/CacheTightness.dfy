/**
 The conditions on view ids under which the eviction list stays in step cannot be done without: for every schedule
 of views that violates one of them, there are batches and reads for which things go wrong.
 */
module CacheTightness {
  import opened Base
  import opened PayloadId
  import opened RecentKeys
  import opened KeyOrder
  import opened StateChanges
  import opened CacheViews
  import opened StateCache
  import opened CacheRuns
  import opened CacheLimits
  import opened CacheFailures
  import opened CacheListFailures

  /** What happens to a view: a batch is delivered for it, or it is asked for. */
  datatype Visit = Delivered(view: ViewId) | Asked(view: ViewId)

  function SilentStep(visit: Visit): Step {
    match visit
    case Delivered(view) => Block(view, NOTHING)
    case Asked(view) => View(view)
  }

  /** A schedule in which no batch changes anything. */
  function Silent(visits: seq<Visit>): seq<Step> {
    if visits == [] then [] else Silent(visits[..|visits| - 1]) + [SilentStep(visits[|visits| - 1])]
  }

  // ---------------------------------------------------------------- many addresses

  function AddressOf(i: nat): Address {
    StoreBig(i, ADDRESS_LENGTH)
  }

  lemma {:induction false} PowerAtLeast(width: nat)
    requires width >= 5
    ensures Power256(width) >= 0x2_0000_0000
  {
    if width == 5 {
      assert Power256(1) == 256 && Power256(2) == 0x1_0000 && Power256(3) == 0x100_0000;
      assert Power256(4) == 0x1_0000_0000;
    } else {
      PowerAtLeast(width - 1);
    }
  }

  lemma AddressesDiffer(i: nat, j: nat)
    requires i < 0x2_0000_0000 && j < 0x2_0000_0000 && AddressOf(i) == AddressOf(j)
    ensures i == j
  {
    PowerAtLeast(ADDRESS_LENGTH);
    StoreBigKeepsValue(i, ADDRESS_LENGTH);
    StoreBigKeepsValue(j, ADDRESS_LENGTH);
  }

  function Addresses(n: nat): (r: seq<Bytes>)
    ensures |r| == n && forall i | 0 <= i < n :: r[i] == AddressOf(i)
  {
    seq(n, i requires 0 <= i < n => AddressOf(i))
  }

  lemma AddressesDistinct(n: nat)
    requires n <= 0x1_0000_0000
    ensures NoDuplicates(Addresses(n)) && AddressOf(n) !in Addresses(n)
  {
    forall i, j | 0 <= i < j <= n
      ensures AddressOf(i) != AddressOf(j)
    {
      if AddressOf(i) == AddressOf(j) {
        AddressesDiffer(i, j);
      }
    }
  }

  // ---------------------------------------------------------------- silent runs

  /** Nothing is cached and nothing has gone wrong. */
  ghost predicate Blank(s: Snapshot) {
    && (forall v | v in s.roots :: s.roots[v].cache == map[])
    && s.evictions == [] && !s.trace.failed && !s.trace.misread
  }

  lemma BlankStart(s: Snapshot, view: ViewId)
    requires Blank(s)
    ensures Start(s, view) == Recent(map[], [], s.trace)
  {
  }

  lemma BlankNext(config: Config, db: Database, s: Snapshot, visit: Visit)
    requires Blank(s) && !Dangles(config.maxViews, db, ViewsOf(s), SilentStep(visit))
    ensures Blank(Next(config, db, s, SilentStep(visit)))
  {
    if visit.Delivered? {
      assert MarksOf(s.roots).Keys == s.roots.Keys;
      BlankStart(s, visit.view);
      NothingSaysNothing(ReadingOf(config.withStorage));
      AppliedMeans(config, s, visit.view, NOTHING);
    }
  }

  lemma {:induction false} BlankRun(config: Config, stray: Strays, db: Database, visits: seq<Visit>)
    requires !DanglesIn(config.maxViews, db, NO_VIEWS, Silent(visits))
    ensures Blank(StateAfter(config, db, NewCache(stray), Silent(visits)))
  {
    assert ViewsOf(NewCache(stray)) == NO_VIEWS;
    if visits != [] {
      var n := |visits| - 1;
      var before, step := Silent(visits[..n]), SilentStep(visits[n]);
      OneMoreStep(config.maxViews, db, NO_VIEWS, before, step);
      BlankRun(config, stray, db, visits[..n]);
      RunViews(config, db, NewCache(stray), before);
      BlankNext(config, db, StateAfter(config, db, NewCache(stray), before), visits[n]);
      OneMoreNext(config, db, NewCache(stray), before, step);
    }
  }

  // ---------------------------------------------------------------- a disorderly batch

  lemma {:induction false} EffectCameFrom<K, V>(entries: seq<Entry<K, V>>, k: K) returns (i: nat)
    requires k in Effect(entries)
    ensures i < |entries| && entries[i].key == k
  {
    var n := |entries| - 1;
    if k == entries[n].key {
      i := n;
    } else {
      i := EffectCameFrom(entries[..n], k);
    }
  }

  /** New keys within the limit are all listed, and nothing else happens. */
  lemma {:induction false} PutFresh<K, V>(limit: nat, entries: seq<Entry<K, V>>, trace: Trace<K>)
    requires |entries| <= limit && forall i, j | 0 <= i < j < |entries| :: entries[i].key != entries[j].key
    ensures
      var r := PutAll(limit, Recent(map[], [], trace), entries);
      && |r.keys| == |entries| && (forall k | k in r.keys :: k in Effect(entries))
      && r.cache == Effect(entries) && r.trace == trace
  {
    if entries != [] {
      var n := |entries| - 1;
      PutFresh(limit, entries[..n], trace);
      if entries[n].key in Effect(entries[..n]) {
        var i := EffectCameFrom(entries[..n], entries[n].key);
      }
    }
  }

  /** The eviction list is full of keys that no view but the latest has. */
  ghost predicate Loaded(config: Config, s: Snapshot) {
    && |s.evictions| == config.maxStateKeys && !s.trace.failed && !s.trace.misread
    && (forall k | k in s.evictions :: k in Addresses(config.maxStateKeys))
    && (forall v | v in s.roots && v != s.latest :: s.roots[v].cache == map[])
  }

  function LoadOf(config: Config): Batch {
    [Upserts(Addresses(config.maxStateKeys))]
  }

  lemma LoadFills(config: Config, trace: Trace<Bytes>)
    ensures
      var r := Filled(config, Recent(map[], [], trace), LoadOf(config));
      && |r.keys| == config.maxStateKeys && r.trace == trace
      && forall k | k in r.keys :: k in Addresses(config.maxStateKeys)
  {
    var addresses, entries := Addresses(config.maxStateKeys), EntriesFor(Addresses(config.maxStateKeys));
    EntriesOfBlock(addresses, ReadingOf(config.withStorage));
    AddressesDistinct(config.maxStateKeys);
    PutFresh(config.maxStateKeys, entries, trace);
    forall k | k in Effect(entries)
      ensures k in addresses
    {
      var i := EffectCameFrom(entries, k);
    }
  }

  lemma LoadedByBatch(config: Config, db: Database, s: Snapshot, view: ViewId)
    requires Blank(s) && !Dangles(config.maxViews, db, ViewsOf(s), Block(view, LoadOf(config)))
    ensures Loaded(config, Next(config, db, s, Block(view, LoadOf(config))))
  {
    assert MarksOf(s.roots).Keys == s.roots.Keys;
    AppliedMeans(config, s, view, LoadOf(config));
    BlankStart(s, view);
    LoadFills(config, s.trace);
  }

  lemma {:induction false} LoadedThroughReads(config: Config, db: Database, s: Snapshot, views: seq<ViewId>)
    requires Loaded(config, s) && s.latest in s.roots
    ensures
      var s' := StateAfter(config, db, s, Reads(views));
      Loaded(config, s') && s'.latest == s.latest && s'.latest in s'.roots
  {
    if views != [] {
      var n := |views| - 1;
      LoadedThroughReads(config, db, s, views[..n]);
      assert Reads(views) == Reads(views[..n]) + [View(views[n])];
      OneMoreNext(config, db, s, Reads(views[..n]), View(views[n]));
    }
  }

  /** A change of an account that is not among those. */
  function OneMoreKey(config: Config): Batch {
    [Upserts([AddressOf(config.maxStateKeys)])]
  }

  lemma FullListFails<K, V>(limit: nat, keys: seq<K>, e: Entry<K, V>, trace: Trace<K>)
    requires |keys| == limit != 0 && e.key !in keys
    ensures
      var r := PutAll(limit, Recent(map[], keys, trace), [e]);
      r.trace.failed && r.trace.misread == trace.misread
  {
    var r := Recent(map[], keys, trace);
    PutAllOfSingle(limit, r, e);
    PutFailsIff(limit, r, e);
    assert Listed(r, e.key)[1..] == keys;
    assert keys[limit - 1] in keys;
  }

  /** One new key is then enough: the list is full, and the cache it is taken for has none of its keys. */
  lemma OneKeyFails(config: Config, keys: seq<Bytes>, trace: Trace<Bytes>)
    requires |keys| == config.maxStateKeys != 0 && forall k | k in keys :: k in Addresses(config.maxStateKeys)
    ensures
      var r := Filled(config, Recent(map[], keys, trace), OneMoreKey(config));
      r.trace.failed && r.trace.misread == trace.misread
  {
    var address := AddressOf(config.maxStateKeys);
    EntriesOfBlock([address], ReadingOf(config.withStorage));
    assert EntriesFor([address]) == [Entry(address, [1])];
    AddressesDistinct(config.maxStateKeys);
    FullListFails<Bytes, Bytes>(config.maxStateKeys, keys, Entry(address, [1]), trace);
  }

  lemma DisorderlyStart(config: Config, s: Snapshot, next: ViewId, batch: Batch)
    requires Loaded(config, s) && !Orderly(ViewsOf(s), Block(next, batch))
    ensures Start(s, next) == Recent(map[], s.evictions, s.trace)
  {
    assert MarksOf(s.roots).Keys == s.roots.Keys;
    assert Extends(s.roots, next);
  }

  lemma DisorderlyStepFails(config: Config, db: Database, s: Snapshot, next: ViewId, batch: Batch)
    requires Loaded(config, s) && config.maxStateKeys != 0 && batch == OneMoreKey(config)
    requires !Orderly(ViewsOf(s), Block(next, batch)) && !Dangles(config.maxViews, db, ViewsOf(s), Block(next, batch))
    ensures Next(config, db, s, Block(next, batch)).trace.failed
    ensures !Next(config, db, s, Block(next, batch)).trace.misread
  {
    assert MarksOf(s.roots).Keys == s.roots.Keys;
    DisorderlyStart(config, s, next, batch);
    AppliedMeans(config, s, next, batch);
    OneKeyFails(config, s.evictions, s.trace);
  }

  /** Whatever the views visited before, and asked for since the last batch: if the next batch is disorderly, there
      are changes for these batches that make the assertion fail. */
  lemma DisorderlyFails(config: Config, stray: Strays, db: Database,
                        visits: seq<Visit>, last: ViewId, views: seq<ViewId>, next: ViewId, steps: seq<Step>)
    requires config.maxStateKeys != 0
    requires steps == Silent(visits) + [Block(last, LoadOf(config))] + Reads(views)
    requires
      var step := Block(next, OneMoreKey(config));
      && !DanglesIn(config.maxViews, db, NO_VIEWS, steps + [step])
      && !Orderly(After(config.maxViews, NO_VIEWS, steps), step)
    ensures
      var s := StateAfter(config, db, NewCache(stray), steps + [Block(next, OneMoreKey(config))]);
      s.trace.failed && !s.trace.misread
  {
    var s0, step := NewCache(stray), Block(next, OneMoreKey(config));
    assert ViewsOf(s0) == NO_VIEWS;
    OneMoreStep(config.maxViews, db, NO_VIEWS, steps, step);
    LoadedAfter(config, stray, db, visits, last, views, steps);
    RunViews(config, db, s0, steps);
    DisorderlyStepFails(config, db, StateAfter(config, db, s0, steps), next, OneMoreKey(config));
    OneMoreNext(config, db, s0, steps, step);
  }

  lemma LoadedAfter(config: Config, stray: Strays, db: Database,
                    visits: seq<Visit>, last: ViewId, views: seq<ViewId>, steps: seq<Step>)
    requires steps == Silent(visits) + [Block(last, LoadOf(config))] + Reads(views)
    requires !DanglesIn(config.maxViews, db, NO_VIEWS, steps)
    ensures Loaded(config, StateAfter(config, db, NewCache(stray), steps))
  {
    var s0, block := NewCache(stray), Block(last, LoadOf(config));
    assert ViewsOf(s0) == NO_VIEWS;
    var before := Silent(visits);
    StepsInTurn(config, db, s0, before + [block], Reads(views));
    OneMoreStep(config.maxViews, db, NO_VIEWS, before, block);
    BlankRun(config, stray, db, visits);
    RunViews(config, db, s0, before);
    var s := StateAfter(config, db, s0, before);
    LoadedByBatch(config, db, s, last);
    assert MarksOf(s.roots).Keys == s.roots.Keys;
    AppliedMeans(config, s, last, LoadOf(config));
    OneMoreNext(config, db, s0, before, block);
    LoadedThroughReads(config, db, StateAfter(config, db, s0, before + [block]), views);
  }

  /** Steps taken one part after the other. */
  lemma {:induction false} StatesInTurn(config: Config, db: Database, s: Snapshot, a: seq<Step>, b: seq<Step>)
    ensures StateAfter(config, db, s, a + b) == StateAfter(config, db, StateAfter(config, db, s, a), b)
    decreases |b|
  {
    if b == [] {
      assert a + b == a;
    } else {
      var rest, step, mid := b[..|b| - 1], b[|b| - 1], StateAfter(config, db, s, a);
      calc {
        StateAfter(config, db, s, a + b);
        { assert a + b == (a + rest) + [step]; }
        StateAfter(config, db, s, (a + rest) + [step]);
        { OneMoreNext(config, db, s, a + rest, step); }
        Next(config, db, StateAfter(config, db, s, a + rest), step);
        { StatesInTurn(config, db, s, a, rest); }
        Next(config, db, StateAfter(config, db, mid, rest), step);
        { OneMoreNext(config, db, mid, rest, step); }
        StateAfter(config, db, mid, rest + [step]);
        { assert b == rest + [step]; }
        StateAfter(config, db, mid, b);
      }
    }
  }

  lemma {:induction false} DanglesInPart(maxViews: uint64, db: Database, v: Views, a: seq<Step>, b: seq<Step>)
    requires DanglesIn(maxViews, db, v, a)
    ensures DanglesIn(maxViews, db, v, a + b)
    decreases |b|
  {
    if b == [] {
      assert a + b == a;
    } else {
      var rest, step := b[..|b| - 1], b[|b| - 1];
      DanglesInPart(maxViews, db, v, a, rest);
      OneMoreStep(maxViews, db, v, a + rest, step);
      assert a + b == (a + rest) + [step];
    }
  }

  lemma StepsInTurn(config: Config, db: Database, s: Snapshot, a: seq<Step>, b: seq<Step>)
    ensures StateAfter(config, db, s, a + b) == StateAfter(config, db, StateAfter(config, db, s, a), b)
    ensures DanglesIn(config.maxViews, db, ViewsOf(s), a) ==> DanglesIn(config.maxViews, db, ViewsOf(s), a + b)
  {
    StatesInTurn(config, db, s, a, b);
    if DanglesIn(config.maxViews, db, ViewsOf(s), a) {
      DanglesInPart(config.maxViews, db, ViewsOf(s), a, b);
    }
  }

  // ---------------------------------------------------------------- a batch for a view read before

  /** A view other than the latest holds the first `n` addresses. */
  ghost predicate Stuffed(s: Snapshot, view: ViewId, n: nat) {
    && view in s.roots && view != s.latest && !s.trace.failed && !s.trace.misread
    && s.roots[view].cache.Keys == Keys(Addresses(n))
  }

  /** Reads that miss, of as many keys. */
  function Stores(root: RootId, n: nat): seq<Step> {
    if n == 0 then [] else Stores(root, n - 1) + [Store(root, AddressOf(n - 1))]
  }

  lemma StuffedOneMore(config: Config, db: Database, s: Snapshot, root: RootId, n: nat)
    requires Stuffed(s, root.view, n) && db(root.view, AddressOf(n)) != []
    ensures Stuffed(Next(config, db, s, Store(root, AddressOf(n))), root.view, n + 1)
  {
    var cache := s.roots[root.view].cache;
    assert Addresses(n + 1) == Addresses(n) + [AddressOf(n)];
    assert Keys(Addresses(n + 1)) == Keys(Addresses(n)) + {AddressOf(n)};
    assert cache[AddressOf(n) := db(root.view, AddressOf(n))].Keys == cache.Keys + {AddressOf(n)};
  }

  lemma {:induction false} StoresKeepViews(maxViews: uint64, db: Database, v: Views, root: RootId, n: nat)
    requires Holds(v, root)
    ensures After(maxViews, v, Stores(root, n)) == v && !DanglesIn(maxViews, db, v, Stores(root, n))
  {
    if n != 0 {
      var before, step := Stores(root, n - 1), Store(root, AddressOf(n - 1));
      StoresKeepViews(maxViews, db, v, root, n - 1);
      OneMoreStep(maxViews, db, v, before, step);
      assert Stores(root, n) == before + [step];
      assert !Dangles(maxViews, db, v, step) && AfterStep(maxViews, v, step) == v;
    }
  }

  lemma {:induction false} StuffedByStores(config: Config, db: Database, s: Snapshot, root: RootId, n: nat)
    requires Blank(s) && Holds(ViewsOf(s), root) && root.view != s.latest
    requires forall i: nat | i < n :: db(root.view, AddressOf(i)) != []
    ensures Stuffed(StateAfter(config, db, s, Stores(root, n)), root.view, n)
  {
    if n == 0 {
      assert Keys(Addresses(0)) == {};
    } else {
      StuffedByStores(config, db, s, root, n - 1);
      StuffedOneMore(config, db, StateAfter(config, db, s, Stores(root, n - 1)), root, n - 1);
      OneMoreNext(config, db, s, Stores(root, n - 1), Store(root, AddressOf(n - 1)));
    }
  }

  lemma StuffedBatchOverflows(config: Config, db: Database, s: Snapshot, next: ViewId)
    requires Stuffed(s, next, config.maxStateKeys + 1) && !ExtendsView(ViewsOf(s), next)
    requires !Dangles(config.maxViews, db, ViewsOf(s), Block(next, NOTHING))
    ensures
      var s' := Next(config, db, s, Block(next, NOTHING));
      && s'.latest == next && next in s'.roots && |s'.roots[next].cache| > config.maxStateKeys
      && !s'.trace.failed && !s'.trace.misread
  {
    var addresses := Addresses(config.maxStateKeys + 1);
    assert MarksOf(s.roots).Keys == s.roots.Keys;
    AppliedMeans(config, s, next, NOTHING);
    NothingSaysNothing(ReadingOf(config.withStorage));
    assert !Extends(s.roots, next) && Inherited(s.roots, next) == s.roots[next].cache;
    AddressesDistinct(config.maxStateKeys + 1);
    KeysSize(addresses);
    assert |s.roots[next].cache| == |s.roots[next].cache.Keys|;
  }

  /** Whatever the views visited before: if a batch is delivered for a view that has a root, is not the latest and
      does not extend one reached by a batch, reads of that view make it the latest one with too many keys. */
  lemma ReadBeforeOverflows(config: Config, stray: Strays, db: Database, visits: seq<Visit>, next: ViewId, root: RootId,
                            steps: seq<Step>)
    requires
      var v := After(config.maxViews, NO_VIEWS, Silent(visits));
      && !Unread(v, Block(next, NOTHING)) && root == RootId(next, v.marks[next].serial)
    requires forall i: nat | i <= config.maxStateKeys :: db(next, AddressOf(i)) != []
    requires steps == Silent(visits) + Stores(root, config.maxStateKeys + 1)
    requires !DanglesIn(config.maxViews, db, NO_VIEWS, steps + [Block(next, NOTHING)])
    ensures
      var s := StateAfter(config, db, NewCache(stray), steps + [Block(next, NOTHING)]);
      && s.latest == next && next in s.roots && |s.roots[next].cache| > config.maxStateKeys
      && !s.trace.failed && !s.trace.misread
  {
    var s0, before := NewCache(stray), Silent(visits);
    assert ViewsOf(s0) == NO_VIEWS;
    OneMoreStep(config.maxViews, db, NO_VIEWS, steps, Block(next, NOTHING));
    OneMoreNext(config, db, s0, steps, Block(next, NOTHING));
    StepsInTurn(config, db, s0, before, Stores(root, config.maxStateKeys + 1));
    BlankRun(config, stray, db, visits);
    RunViews(config, db, s0, before);
    RunViews(config, db, s0, steps);
    var s := StateAfter(config, db, s0, before);
    StoresKeepViews(config.maxViews, db, ViewsOf(s), root, config.maxStateKeys + 1);
    RunViews(config, db, s, Stores(root, config.maxStateKeys + 1));
    StuffedByStores(config, db, s, root, config.maxStateKeys + 1);
    StuffedBatchOverflows(config, db, StateAfter(config, db, s0, steps), next);
  }
}
