/**
 Which views the state cache has a root for. Roots are created and evicted by view ids alone, whatever they
 hold, so the roots of every later moment can be told from those of now.
 */
module CacheViews {
  import opened Base
  import opened StateChanges

  type ViewId = uint64

  /** View ids are unsigned and wrap around. */
  function Wrapped(i: int): ViewId {
    i % TWO_TO_64
  }

  /** The state table as transactions see it: the value of a key in a view, empty when absent. */
  type Database = (ViewId, Bytes) -> Bytes

  /** A root is known by its view and the number of its creation: a root created again for the same view is
      another object. */
  datatype RootId = RootId(view: ViewId, serial: nat)

  datatype Mark = Mark(serial: nat, canonical: bool)

  datatype Views = Views(marks: map<ViewId, Mark>, latest: ViewId, created: nat)

  const NO_VIEWS := Views(map[], 0, 0)

  predicate Holds(v: Views, root: RootId) {
    root.view in v.marks && v.marks[root.view].serial == root.serial
  }

  // ---------------------------------------------------------------- eviction

  /** The roots `evict_roots` leaves: none but the newest when view ids wrapped, otherwise those after the
      oldest view to delete, computed in 64-bit arithmetic from the view that was the latest so far. */
  function EvictRoots<R>(roots: map<ViewId, R>, maxViews: uint64, latest: ViewId, next: ViewId): map<ViewId, R> {
    if |roots| <= maxViews then roots
    else if next == 0 then map v | v in roots && v == next :: roots[v]
    else map v | v in roots && v > Wrapped(latest - maxViews + 1) :: roots[v]
  }

  /** Advancing to `next` evicts the very root that is being advanced. */
  predicate Loses(maxViews: uint64, views: set<ViewId>, latest: ViewId, next: ViewId) {
    |views + {next}| > maxViews && 0 < next <= Wrapped(latest - maxViews + 1)
  }

  lemma EvictRootsLeaves<R>(roots: map<ViewId, R>, maxViews: uint64, latest: ViewId, next: ViewId)
    requires next in roots
    ensures
      var kept := EvictRoots(roots, maxViews, latest, next);
      && (forall v | v in kept :: v in roots && kept[v] == roots[v])
      && (next in kept <==> !Loses(maxViews, roots.Keys, latest, next))
  {
    assert roots.Keys + {next} == roots.Keys;
    assert |roots.Keys| == |roots|;
  }

  /** The view next to the latest is lost exactly when there are too many roots while fewer views than the
      limit have gone by: only then does the subtraction wrap around. */
  lemma NextViewLostIff(maxViews: uint64, views: set<ViewId>, latest: ViewId, next: ViewId)
    requires maxViews != 0 && next == latest + 1
    ensures Loses(maxViews, views, latest, next) <==> |views + {next}| > maxViews && latest < maxViews - 1
  {
    var oldest := latest - maxViews + 1;
    assert Wrapped(oldest) == if oldest < 0 then oldest + TWO_TO_64 else oldest;
  }

  /** Once that many have gone by, eviction does what it is for: no more views than the limit up to the
      newest. */
  lemma ViewsBounded<R>(roots: map<ViewId, R>, maxViews: uint64, latest: ViewId, next: ViewId)
    requires maxViews != 0 && latest >= maxViews - 1 && next == latest + 1
    requires forall v | v in roots :: v <= next
    ensures |EvictRoots(roots, maxViews, latest, next)| <= maxViews
  {
    var kept := EvictRoots(roots, maxViews, latest, next);
    if |roots| > maxViews {
      var oldest := latest - maxViews + 1;
      assert Wrapped(oldest) == oldest;
      assert forall v | v in kept.Keys :: oldest < v <= next;
      RangeSize(kept.Keys, oldest, next);
      assert |kept.Keys| == |kept|;
    }
  }

  lemma {:induction false} RangeSize(s: set<ViewId>, low: int, high: int)
    requires low <= high && forall v | v in s :: low < v <= high
    ensures |s| <= high - low
    decreases high - low
  {
    if low < high {
      var rest := set v | v in s && v != high;
      RangeSize(rest, low, high - 1);
      if high in s {
        assert s == rest + {high};
      } else {
        assert s == rest;
      }
    } else {
      assert s == {};
    }
  }

  // ---------------------------------------------------------------- steps

  /** The sections of code that hold the cache's lock. */
  datatype Step =
    | Block(view: ViewId, batch: Batch)      // on_new_block
    | View(readView: ViewId)                 // get_view
    | Lookup(readView: ViewId, key: Bytes)   // get, as far as it holds the shared lock
    | Store(root: RootId, key: Bytes)        // get, storing into the root it found what a miss read

  function WithRoot(v: Views, view: ViewId): Views {
    if view in v.marks then v else v.(marks := v.marks[view := Mark(v.created, false)], created := v.created + 1)
  }

  function Advanced(maxViews: uint64, v: Views, view: ViewId): Views {
    var v' := WithRoot(v, view);
    var marks := v'.marks[view := v'.marks[view].(canonical := true)];
    v'.(marks := EvictRoots(marks, maxViews, v.latest, view), latest := view)
  }

  /** The roots after a step. */
  function AfterStep(maxViews: uint64, v: Views, step: Step): Views {
    match step
    case Block(view, batch) => if batch == [] then v else Advanced(maxViews, v, view)
    case View(view) => WithRoot(v, view)
    case _ => v
  }

  function After(maxViews: uint64, v: Views, steps: seq<Step>): Views {
    if steps == [] then v else
      AfterStep(maxViews, After(maxViews, v, steps[..|steps| - 1]), steps[|steps| - 1])
  }

  /** A step writes to a root that the cache no longer has: a batch whose own root is evicted, or a value
      stored into a root evicted since it was found. The code does so through a dangling pointer. */
  predicate Dangles(maxViews: uint64, db: Database, v: Views, step: Step) {
    match step
    case Block(view, batch) => batch != [] && Loses(maxViews, v.marks.Keys, v.latest, view)
    case Store(root, key) => db(root.view, key) != [] && !Holds(v, root)
    case _ => false
  }

  predicate DanglesIn(maxViews: uint64, db: Database, v: Views, steps: seq<Step>) {
    steps != [] &&
    var n := |steps| - 1;
    DanglesIn(maxViews, db, v, steps[..n]) || Dangles(maxViews, db, After(maxViews, v, steps[..n]), steps[n])
  }

  lemma OneMoreStep(maxViews: uint64, db: Database, v: Views, steps: seq<Step>, step: Step)
    ensures After(maxViews, v, steps + [step]) == AfterStep(maxViews, After(maxViews, v, steps), step)
    ensures DanglesIn(maxViews, db, v, steps + [step]) <==>
            DanglesIn(maxViews, db, v, steps) || Dangles(maxViews, db, After(maxViews, v, steps), step)
  {
    assert (steps + [step])[..|steps|] == steps;
  }

  /** A root once gone never comes back: one created again for its view is another. */
  lemma {:induction false} GoneForGood(maxViews: uint64, v: Views, root: RootId, steps: seq<Step>)
    requires root.serial < v.created && !Holds(v, root)
    ensures !Holds(After(maxViews, v, steps), root) && After(maxViews, v, steps).created >= v.created
  {
    if steps != [] {
      var n := |steps| - 1;
      GoneForGood(maxViews, v, root, steps[..n]);
      GoneAfterStep(maxViews, After(maxViews, v, steps[..n]), root, steps[n]);
    }
  }

  lemma GoneAfterStep(maxViews: uint64, v: Views, root: RootId, step: Step)
    requires root.serial < v.created && !Holds(v, root)
    ensures !Holds(AfterStep(maxViews, v, step), root) && AfterStep(maxViews, v, step).created >= v.created
  {
    if step.Block? && step.batch != [] {
      var v' := WithRoot(v, step.view);
      EvictRootsLeaves(v'.marks[step.view := v'.marks[step.view].(canonical := true)], maxViews, v.latest, step.view);
    }
  }

  // ---------------------------------------------------------------- consecutive batches

  /** Exactly the views from `low` to `high`. */
  ghost predicate IsRange(views: set<ViewId>, low: int, high: int) {
    forall v: ViewId :: v in views <==> low <= v <= high
  }

  lemma {:induction false} RangeIsCounted(views: set<ViewId>, low: ViewId, high: int)
    requires low - 1 <= high < TWO_TO_64 && IsRange(views, low, high)
    ensures |views| == high - low + 1
    decreases high - low
  {
    if high < low {
      assert views == {};
    } else {
      RangeIsCounted(views - {high}, low, high - 1);
      assert views == (views - {high}) + {high};
    }
  }

  /** Batches for consecutive views. */
  function Consecutive(start: ViewId, batches: seq<Batch>): seq<Step>
    requires start + |batches| <= TWO_TO_64
  {
    if batches == [] then [] else
      var n := |batches| - 1;
      Consecutive(start, batches[..n]) + [Block(start + n, batches[n])]
  }

  /** The first of the views kept after the one at distance `n` from the start. */
  function FirstKept(maxViews: uint64, start: ViewId, n: nat): int {
    if n < maxViews then start else start + n + 1 - maxViews
  }

  /** Evicting from a range of views. */
  lemma EvictKeepsRange<R>(roots: map<ViewId, R>, maxViews: uint64, start: ViewId, n: nat)
    requires maxViews != 0 && n != 0 && start + n < TWO_TO_64
    requires IsRange(roots.Keys, FirstKept(maxViews, start, n - 1), start + n)
    ensures !Loses(maxViews, roots.Keys, start + n - 1, start + n)
    ensures IsRange(EvictRoots(roots, maxViews, start + n - 1, start + n).Keys,
                    FirstKept(maxViews, start, n), start + n)
  {
    RangeIsCounted(roots.Keys, FirstKept(maxViews, start, n - 1), start + n);
    assert roots.Keys + {start + n} == roots.Keys && |roots.Keys| == |roots|;
    if n >= maxViews {
      assert Wrapped(start + n - 1 - maxViews + 1) == start + n - maxViews;
    }
  }

  /** After the batch at distance `n` from the start: the newest views have roots. */
  ghost predicate Kept(maxViews: uint64, v: Views, start: ViewId, n: nat) {
    v.latest == start + n && IsRange(v.marks.Keys, FirstKept(maxViews, start, n), start + n)
  }

  lemma MarksWithNext(v: Views, next: ViewId)
    ensures
      var v' := WithRoot(v, next);
      v'.marks[next := v'.marks[next].(canonical := true)].Keys == v.marks.Keys + {next}
  {
  }

  lemma KeptByNext(maxViews: uint64, db: Database, v: Views, start: ViewId, n: nat, batch: Batch)
    requires maxViews != 0 && n != 0 && start + n < TWO_TO_64 && batch != [] && Kept(maxViews, v, start, n - 1)
    ensures !Dangles(maxViews, db, v, Block(start + n, batch))
    ensures Kept(maxViews, AfterStep(maxViews, v, Block(start + n, batch)), start, n)
  {
    var next := start + n;
    var v' := WithRoot(v, next);
    var marks := v'.marks[next := v'.marks[next].(canonical := true)];
    MarksWithNext(v, next);
    EvictKeepsRange(marks, maxViews, start, n);
    assert marks.Keys + {next} == v.marks.Keys + {next};
  }

  lemma FirstIsKept(maxViews: uint64, db: Database, start: ViewId, batch: Batch)
    requires maxViews != 0 && batch != []
    ensures !Dangles(maxViews, db, NO_VIEWS, Block(start, batch))
    ensures Kept(maxViews, AfterStep(maxViews, NO_VIEWS, Block(start, batch)), start, 0)
  {
    var marks := map[start := Mark(0, true)];
    assert NO_VIEWS.marks.Keys + {start} == {start} && |marks.Keys| == |marks| == 1;
    assert WithRoot(NO_VIEWS, start).marks[start := Mark(0, true)] == marks;
  }

  ghost predicate KeptBy(maxViews: uint64, db: Database, start: ViewId, n: nat, steps: seq<Step>) {
    !DanglesIn(maxViews, db, NO_VIEWS, steps) && Kept(maxViews, After(maxViews, NO_VIEWS, steps), start, n)
  }

  lemma KeptByOneMore(maxViews: uint64, db: Database, start: ViewId, n: nat, before: seq<Step>, batch: Batch,
                      steps: seq<Step>)
    requires maxViews != 0 && start + n < TWO_TO_64 && batch != [] && steps == before + [Block(start + n, batch)]
    requires if n == 0 then before == [] else KeptBy(maxViews, db, start, n - 1, before)
    ensures KeptBy(maxViews, db, start, n, steps)
  {
    OneMoreStep(maxViews, db, NO_VIEWS, before, Block(start + n, batch));
    if n > 0 {
      KeptByNext(maxViews, db, After(maxViews, NO_VIEWS, before), start, n, batch);
    } else {
      FirstIsKept(maxViews, db, start, batch);
    }
  }

  lemma {:induction false} KeptByAll(maxViews: uint64, db: Database, start: ViewId, batches: seq<Batch>)
    requires maxViews != 0 && batches != [] && start + |batches| <= TWO_TO_64
    requires forall i | 0 <= i < |batches| :: batches[i] != []
    ensures KeptBy(maxViews, db, start, |batches| - 1, Consecutive(start, batches))
    decreases |batches|
  {
    var n := |batches| - 1;
    if n > 0 {
      KeptByAll(maxViews, db, start, batches[..n]);
    }
    KeptByOneMore(maxViews, db, start, n, Consecutive(start, batches[..n]), batches[n], Consecutive(start, batches));
  }

  /** From construction at any view id: after batches for consecutive views, exactly as many views as the limit have
      roots, the newest ones, or all if there are fewer; and no batch is ever lost. */
  lemma NewestViewsAreKept(maxViews: uint64, db: Database, start: ViewId, batches: seq<Batch>)
    requires maxViews != 0 && batches != [] && start + |batches| <= TWO_TO_64
    requires forall i | 0 <= i < |batches| :: batches[i] != []
    ensures
      var last := start + |batches| - 1;
      var v := After(maxViews, NO_VIEWS, Consecutive(start, batches));
      && !DanglesIn(maxViews, db, NO_VIEWS, Consecutive(start, batches))
      && v.latest == last
      && forall view: ViewId :: view in v.marks <==> start <= view <= last && view > last - maxViews
  {
    KeptByAll(maxViews, db, start, batches);
  }

  // ---------------------------------------------------------------- when the first batch is lost

  function Reads(views: seq<ViewId>): (steps: seq<Step>)
    ensures |steps| == |views| && forall i | 0 <= i < |views| :: steps[i] == View(views[i])
  {
    seq(|views|, i requires 0 <= i < |views| => View(views[i]))
  }

  function Distinct(views: seq<ViewId>): set<ViewId> {
    set view | view in views
  }

  lemma {:induction false} AfterReads(maxViews: uint64, db: Database, views: seq<ViewId>)
    ensures
      var v := After(maxViews, NO_VIEWS, Reads(views));
      v.marks.Keys == Distinct(views) && v.latest == 0 && !DanglesIn(maxViews, db, NO_VIEWS, Reads(views))
  {
    if views != [] {
      var n := |views| - 1;
      AfterReads(maxViews, db, views[..n]);
      assert Reads(views)[..n] == Reads(views[..n]);
      assert Distinct(views) == Distinct(views[..n]) + {views[n]};
    }
  }

  /** From construction on: after reads of any views, the first batch is lost exactly when the views are too
      many and the limit is not one, unless its id is zero or among the last ones below 2^64. */
  lemma FirstBatchLostIff(maxViews: uint64, db: Database, views: seq<ViewId>, next: ViewId, batch: Batch)
    requires maxViews != 0 && batch != []
    ensures DanglesIn(maxViews, db, NO_VIEWS, Reads(views) + [Block(next, batch)]) <==>
            && |Distinct(views) + {next}| > maxViews > 1
            && 0 < next <= TWO_TO_64 - maxViews + 1
  {
    AfterReads(maxViews, db, views);
    OneMoreStep(maxViews, db, NO_VIEWS, Reads(views), Block(next, batch));
    LosesFirst(maxViews, Distinct(views), next);
  }

  lemma LosesFirst(maxViews: uint64, views: set<ViewId>, next: ViewId)
    requires maxViews != 0
    ensures Loses(maxViews, views, 0, next) <==>
            |views + {next}| > maxViews > 1 && 0 < next <= TWO_TO_64 - maxViews + 1
  {
    assert Wrapped(0 - maxViews + 1) == if maxViews == 1 then 0 else TWO_TO_64 - maxViews + 1;
  }
}
