/**
 Least-recently-used replacement as the state cache does it: a cache, and a list of its keys with the most
 recently used first. A key added beyond the limit drops the last one of the list.

 When a key is replaced, the code removes from the list not that key but the one it reads through a pointer to
 the erased entry. What it reads is up to the environment.
 */
module RecentKeys {
  datatype Entry<+K, +V> = Entry(key: K, value: V)

  /** `stray(i)` is the key read through an erased entry for the i-th time, `peeks` the number of such reads so
      far, and `misread` is set once one of them was not the replaced key. `failed` is set when a dropped key was
      not in the cache, which the code asserts never to happen. */
  datatype Trace<+K> = Trace(failed: bool, peeks: nat, misread: bool, stray: nat -> K)

  datatype Recent<+K, +V> = Recent(cache: map<K, V>, keys: seq<K>, trace: Trace<K>)

  /** The last value given to each key. */
  function Effect<K(==), V>(entries: seq<Entry<K, V>>): map<K, V> {
    if entries == [] then map[] else
      var last := entries[|entries| - 1];
      Effect(entries[..|entries| - 1])[last.key := last.value]
  }

  ghost predicate NoDuplicates<K>(s: seq<K>) {
    forall i, j | 0 <= i < j < |s| :: s[i] != s[j]
  }

  /** The list holds each key of the cache exactly once. */
  ghost predicate Tracks<K, V>(keys: seq<K>, cache: map<K, V>) {
    (forall k | k in keys :: k in cache) && (forall k | k in cache :: k in keys) && NoDuplicates(keys)
  }

  ghost predicate SubMap<K, V>(a: map<K, V>, b: map<K, V>) {
    forall k | k in a :: k in b && a[k] == b[k]
  }

  /** `std::list::remove` */
  function Remove<K(==)>(s: seq<K>, key: K): seq<K> {
    if s == [] then [] else (if s[0] == key then [] else [s[0]]) + Remove(s[1..], key)
  }

  lemma {:induction false} RemoveMembers<K>(s: seq<K>, key: K)
    ensures key !in Remove(s, key)
    ensures forall k | k != key :: k in Remove(s, key) <==> k in s
    ensures key !in s ==> Remove(s, key) == s
    ensures |Remove(s, key)| <= |s|
  {
    if s != [] {
      RemoveMembers(s[1..], key);
    }
  }

  /** `remove` and then `push_front`. */
  function Touch<K(==)>(s: seq<K>, key: K): seq<K> {
    [key] + Remove(s, key)
  }

  /** The key read through the erased entry is another one. */
  predicate Misreads<K(==), V>(r: Recent<K, V>, key: K) {
    key in r.cache && r.trace.stray(r.trace.peeks) != key
  }

  /** The list before it is cut: if the cache had the key, the key read through its erased entry is removed. */
  function Listed<K(==), V>(r: Recent<K, V>, key: K): seq<K> {
    [key] + if key in r.cache then Remove(r.keys, r.trace.stray(r.trace.peeks)) else r.keys
  }

  function Traced<K(==), V>(r: Recent<K, V>, key: K): Trace<K> {
    if key in r.cache
    then r.trace.(peeks := r.trace.peeks + 1, misread := r.trace.misread || Misreads(r, key))
    else r.trace
  }

  /** `add` to the cache of the latest view. */
  function Put<K(==), V>(limit: nat, r: Recent<K, V>, e: Entry<K, V>): Recent<K, V> {
    var keys, cache, trace := Listed(r, e.key), r.cache[e.key := e.value], Traced(r, e.key);
    if |keys| <= limit then
      Recent(cache, keys, trace)
    else
      var oldest := keys[|keys| - 1];
      Recent(cache - {oldest}, keys[..|keys| - 1], trace.(failed := trace.failed || oldest !in cache))
  }

  function PutAll<K(==), V>(limit: nat, r: Recent<K, V>, entries: seq<Entry<K, V>>): Recent<K, V> {
    if entries == [] then r else
      Put(limit, PutAll(limit, r, entries[..|entries| - 1]), entries[|entries| - 1])
  }

  lemma {:induction false} PutAllOfConcatenation<K, V>(
    limit: nat, r: Recent<K, V>, a: seq<Entry<K, V>>, b: seq<Entry<K, V>>)
    ensures PutAll(limit, r, a + b) == PutAll(limit, PutAll(limit, r, a), b)
    decreases |b|
  {
    if b == [] {
      assert a + b == a;
    } else {
      PutAllOfConcatenation(limit, r, a, b[..|b| - 1]);
      assert (a + b)[..|a + b| - 1] == a + b[..|b| - 1];
    }
  }

  lemma PutAllOfSingle<K, V>(limit: nat, r: Recent<K, V>, e: Entry<K, V>)
    ensures PutAll(limit, r, [e]) == Put(limit, r, e)
  {
    assert [e][..0] == [];
  }

  /** A misread is never forgotten. */
  lemma MisreadStays<K, V>(limit: nat, r: Recent<K, V>, entries: seq<Entry<K, V>>)
    requires entries != [] && !PutAll(limit, r, entries).trace.misread
    ensures
      var n := |entries| - 1;
      var mid := PutAll(limit, r, entries[..n]);
      !mid.trace.misread && !Misreads(mid, entries[n].key)
  {
  }

  /** Nothing is in the cache but what the entries or the old cache give, whatever is read. */
  lemma {:induction false} PutAllAddsNothing<K, V>(limit: nat, r: Recent<K, V>, entries: seq<Entry<K, V>>)
    ensures SubMap(PutAll(limit, r, entries).cache, r.cache + Effect(entries))
  {
    if entries != [] {
      PutAllAddsNothing(limit, r, entries[..|entries| - 1]);
    }
  }

  lemma {:induction false} EffectOfConcatenation<K, V>(a: seq<Entry<K, V>>, b: seq<Entry<K, V>>)
    ensures Effect(a + b) == Effect(a) + Effect(b)
    decreases |b|
  {
    if b == [] {
      assert a + b == a;
    } else {
      var n := |b| - 1;
      EffectOfConcatenation(a, b[..n]);
      assert (a + b)[..|a + b| - 1] == a + b[..n];
      assert (Effect(a) + Effect(b[..n]))[b[n].key := b[n].value] == Effect(a) + Effect(b[..n])[b[n].key := b[n].value];
    }
  }

  lemma EffectOfSingle<K, V>(e: Entry<K, V>)
    ensures Effect([e]) == map[e.key := e.value]
  {
    assert [e][..0] == [];
  }

  // ---------------------------------------------------------------- list and cache in step

  lemma {:induction false} RemoveKeepsDistinct<K>(s: seq<K>, key: K)
    requires NoDuplicates(s)
    ensures NoDuplicates(Remove(s, key))
  {
    if s != [] {
      RemoveKeepsDistinct(s[1..], key);
      RemoveMembers(s[1..], key);
      var rest := Remove(s[1..], key);
      if s[0] != key {
        forall j | 0 <= j < |rest|
          ensures rest[j] != s[0]
        {
          assert rest[j] in rest;
        }
      }
    }
  }

  lemma TouchDistinct<K>(s: seq<K>, key: K)
    requires NoDuplicates(s)
    ensures NoDuplicates(Touch(s, key))
  {
    RemoveKeepsDistinct(s, key);
    RemoveMembers(s, key);
    var rest := Remove(s, key);
    forall j | 0 <= j < |rest|
      ensures rest[j] != key
    {
      assert rest[j] in rest;
    }
  }

  lemma TouchMembers<K>(s: seq<K>, key: K, k: K)
    ensures k in Touch(s, key) <==> k == key || k in s
  {
    RemoveMembers(s, key);
    assert Touch(s, key)[0] == key;
    assert k in Touch(s, key) <==> k == key || k in Remove(s, key);
  }

  /** Moving a key to the front. */
  lemma TouchTracks<K, V>(keys: seq<K>, cache: map<K, V>, key: K, value: V)
    requires Tracks(keys, cache)
    ensures Tracks(Touch(keys, key), cache[key := value])
    ensures |Touch(keys, key)| == if key in cache then |keys| else |keys| + 1
  {
    TouchDistinct(keys, key);
    RemoveLength(keys, key);
    var touched, cache' := Touch(keys, key), cache[key := value];
    forall k | k in touched
      ensures k in cache'
    {
      TouchMembers(keys, key, k);
    }
    forall k | k in cache'
      ensures k in touched
    {
      TouchMembers(keys, key, k);
    }
  }

  /** Dropping the oldest key from both. */
  lemma DropOldestTracks<K, V>(keys: seq<K>, cache: map<K, V>)
    requires Tracks(keys, cache) && keys != []
    ensures keys[|keys| - 1] in cache
    ensures Tracks(keys[..|keys| - 1], cache - {keys[|keys| - 1]})
  {
    var n := |keys| - 1;
    forall k
      ensures k in keys[..n] <==> k in cache - {keys[n]}
    {
      if k in keys && k != keys[n] {
        var i :| 0 <= i < |keys| && keys[i] == k;
        assert keys[..n][i] == k;
      }
    }
  }

  lemma {:induction false} TracksLength<K, V>(keys: seq<K>, cache: map<K, V>)
    requires Tracks(keys, cache)
    ensures |keys| == |cache.Keys|
    decreases |keys|
  {
    if keys == [] {
      assert cache.Keys == {};
    } else {
      var n := |keys| - 1;
      DropOldestTracks(keys, cache);
      TracksLength(keys[..n], cache - {keys[n]});
      assert cache.Keys == (cache - {keys[n]}).Keys + {keys[n]};
    }
  }

  /** In step, the list without the key is the same whether or not the cache had the key. */
  lemma ListedIsTouched<K, V>(r: Recent<K, V>, key: K)
    requires Tracks(r.keys, r.cache) && !Misreads(r, key)
    ensures Listed(r, key) == Touch(r.keys, key)
  {
    RemoveMembers(r.keys, key);
  }

  /** Replacing a key of a list in step keeps it in step exactly when the key read is the replaced one. */
  lemma ReplacedTracksIff<K, V>(r: Recent<K, V>, e: Entry<K, V>)
    requires Tracks(r.keys, r.cache) && e.key in r.cache
    ensures Tracks(Listed(r, e.key), r.cache[e.key := e.value]) <==> !Misreads(r, e.key)
  {
    var read, listed := r.trace.stray(r.trace.peeks), Listed(r, e.key);
    if read == e.key {
      TouchTracks(r.keys, r.cache, e.key, e.value);
    } else {
      RemoveMembers(r.keys, read);
      assert e.key in Remove(r.keys, read);
      var i :| 0 <= i < |Remove(r.keys, read)| && Remove(r.keys, read)[i] == e.key;
      assert listed[0] == listed[i + 1];
    }
  }

  /** When a list in step with its cache is within the limit, both stay so, and the assertion holds. */
  lemma PutTracks<K, V>(limit: nat, r: Recent<K, V>, e: Entry<K, V>)
    requires Tracks(r.keys, r.cache) && !Misreads(r, e.key)
    ensures
      var r' := Put(limit, r, e);
      && Tracks(r'.keys, r'.cache) && r'.trace.failed == r.trace.failed
      && (|r.keys| <= limit ==> |r'.keys| <= limit)
  {
    var listed, cache := Touch(r.keys, e.key), r.cache[e.key := e.value];
    ListedIsTouched(r, e.key);
    TouchTracks(r.keys, r.cache, e.key, e.value);
    if |listed| > limit {
      DropOldestTracks(listed, cache);
    }
  }

  lemma {:induction false} PutAllTracks<K, V>(limit: nat, r: Recent<K, V>, entries: seq<Entry<K, V>>)
    requires Tracks(r.keys, r.cache) && !PutAll(limit, r, entries).trace.misread
    ensures
      var r' := PutAll(limit, r, entries);
      && Tracks(r'.keys, r'.cache) && r'.trace.failed == r.trace.failed
      && (|r.keys| <= limit ==> |r'.keys| <= limit)
  {
    if entries != [] {
      MisreadStays(limit, r, entries);
      PutAllTracks(limit, r, entries[..|entries| - 1]);
      PutTracks(limit, PutAll(limit, r, entries[..|entries| - 1]), entries[|entries| - 1]);
    }
  }

  /** How many of the entries are for keys in the cache at that moment. */
  function Hits<K(==), V>(limit: nat, r: Recent<K, V>, entries: seq<Entry<K, V>>): nat {
    if entries == [] then 0 else
      var n := |entries| - 1;
      Hits(limit, r, entries[..n]) + if entries[n].key in PutAll(limit, r, entries[..n]).cache then 1 else 0
  }

  lemma PutLength<K, V>(limit: nat, r: Recent<K, V>, e: Entry<K, V>)
    requires Tracks(r.keys, r.cache) && !Misreads(r, e.key)
    ensures |Put(limit, r, e).keys| ==
              if e.key in r.cache then (if |r.keys| > limit then |r.keys| - 1 else |r.keys|)
              else if |r.keys| >= limit then |r.keys| else |r.keys| + 1
  {
    ListedIsTouched(r, e.key);
    TouchTracks(r.keys, r.cache, e.key, e.value);
  }

  /** In step, a list that is too long shrinks by one for each hit; so after some entries it is too long exactly
      when it was so by more than the number of hits. */
  lemma {:induction false} PutAllOverfullIff<K, V>(limit: nat, r: Recent<K, V>, entries: seq<Entry<K, V>>)
    requires Tracks(r.keys, r.cache) && !PutAll(limit, r, entries).trace.misread
    ensures |PutAll(limit, r, entries).keys| > limit <==> |r.keys| - Hits(limit, r, entries) > limit
    ensures |r.keys| - Hits(limit, r, entries) > limit ==>
              |PutAll(limit, r, entries).keys| == |r.keys| - Hits(limit, r, entries)
  {
    if entries != [] {
      var n := |entries| - 1;
      MisreadStays(limit, r, entries);
      PutAllOverfullIff(limit, r, entries[..n]);
      PutAllTracks(limit, r, entries[..n]);
      PutLength(limit, PutAll(limit, r, entries[..n]), entries[n]);
    }
  }

  /** How much one addition changes the number of cached keys, in step or not: a new key counts, and so does the
      key that is dropped, if it is cached. */
  function Growth<K(==), V>(limit: nat, r: Recent<K, V>, key: K): int {
    var listed := Listed(r, key);
    (if key in r.cache then 0 else 1)
    - (if |listed| > limit && listed[|listed| - 1] in r.cache.Keys + {key} then 1 else 0)
  }

  function Growths<K(==), V>(limit: nat, r: Recent<K, V>, entries: seq<Entry<K, V>>): int {
    if entries == [] then 0 else
      var n := |entries| - 1;
      Growths(limit, r, entries[..n]) + Growth(limit, PutAll(limit, r, entries[..n]), entries[n].key)
  }

  lemma PutSize<K, V>(limit: nat, r: Recent<K, V>, e: Entry<K, V>)
    ensures |Put(limit, r, e).cache.Keys| == |r.cache.Keys| + Growth(limit, r, e.key)
  {
    var listed, cache := Listed(r, e.key), r.cache[e.key := e.value];
    assert cache.Keys == r.cache.Keys + {e.key};
    if |listed| > limit {
      var oldest := listed[|listed| - 1];
      assert (cache - {oldest}).Keys == cache.Keys - {oldest};
    }
  }

  /** From any start, the number of keys after some entries, hence exactly when they are too many. */
  lemma {:induction false} PutAllSize<K, V>(limit: nat, r: Recent<K, V>, entries: seq<Entry<K, V>>)
    ensures |PutAll(limit, r, entries).cache.Keys| == |r.cache.Keys| + Growths(limit, r, entries)
  {
    if entries != [] {
      var n := |entries| - 1;
      PutAllSize(limit, r, entries[..n]);
      PutSize(limit, PutAll(limit, r, entries[..n]), entries[n]);
    }
  }

  /** When exactly the assertion fails: the list without the added key fills the limit, and its last key is
      neither in the cache nor the added key. */
  lemma PutFailsIff<K, V>(limit: nat, r: Recent<K, V>, e: Entry<K, V>)
    ensures Put(limit, r, e).trace.failed <==>
              r.trace.failed ||
              var others := Listed(r, e.key)[1..];
              |others| >= limit && others != [] && others[|others| - 1] !in r.cache.Keys + {e.key}
  {
    var listed := Listed(r, e.key);
    if |listed| > 1 {
      assert listed[|listed| - 1] == listed[1..][|listed| - 2];
    }
  }

  /** What is told beforehand of an addition: exactly when the assertion fails, when a key is misread, and how
      many keys there are afterwards. */
  ghost predicate PutMeans<K, V>(limit: nat, r: Recent<K, V>, key: K, r': Recent<K, V>) {
    var others := Listed(r, key)[1..];
    && (r'.trace.failed <==>
          || r.trace.failed
          || (|others| >= limit && others != [] && others[|others| - 1] !in r.cache.Keys + {key}))
    && (r'.trace.misread <==> r.trace.misread || Misreads(r, key))
    && |r'.cache.Keys| == |r.cache.Keys| + Growth(limit, r, key)
  }

  lemma PutDoesWhatItMeans<K, V>(limit: nat, r: Recent<K, V>, e: Entry<K, V>)
    ensures PutMeans(limit, r, e.key, Put(limit, r, e))
  {
    PutFailsIff(limit, r, e);
    PutSize(limit, r, e);
  }

  // ---------------------------------------------------------------- which keys stay

  /** The first `n` keys, or all if there are not as many. */
  function Take<K(==)>(s: seq<K>, n: nat): seq<K> {
    if |s| <= n then s else s[..n]
  }

  /** The list after using all those keys, were there no limit. */
  function Recency<K(==), V>(keys: seq<K>, entries: seq<Entry<K, V>>): seq<K> {
    if entries == [] then keys else
      Touch(Recency(keys, entries[..|entries| - 1]), entries[|entries| - 1].key)
  }

  function Restrict<K(==), V>(m: map<K, V>, keys: seq<K>): map<K, V> {
    map k | k in m && k in keys :: m[k]
  }

  lemma RemoveOfPush<K>(x: K, rest: seq<K>, key: K)
    ensures Remove([x] + rest, key) == (if x == key then [] else [x]) + Remove(rest, key)
  {
    assert ([x] + rest)[1..] == rest;
  }

  lemma Associative<K>(a: seq<K>, b: seq<K>, c: seq<K>)
    ensures a + (b + c) == (a + b) + c
  {
  }

  lemma {:induction false} RemoveOfConcatenation<K>(a: seq<K>, b: seq<K>, key: K)
    ensures Remove(a + b, key) == Remove(a, key) + Remove(b, key)
  {
    if a == [] {
      assert a + b == b;
    } else {
      var x, rest := a[0], a[1..];
      calc {
        Remove(a + b, key);
        { assert a + b == [x] + (rest + b); RemoveOfPush(x, rest + b, key); }
        (if x == key then [] else [x]) + Remove(rest + b, key);
        { RemoveOfConcatenation(rest, b, key); }
        (if x == key then [] else [x]) + (Remove(rest, key) + Remove(b, key));
        { Associative(if x == key then [] else [x], Remove(rest, key), Remove(b, key)); }
        ((if x == key then [] else [x]) + Remove(rest, key)) + Remove(b, key);
        { assert a == [x] + rest; RemoveOfPush(x, rest, key); }
        Remove(a, key) + Remove(b, key);
      }
    }
  }

  lemma {:induction false} RemoveLength<K>(s: seq<K>, key: K)
    requires NoDuplicates(s)
    ensures |Remove(s, key)| == if key in s then |s| - 1 else |s|
  {
    if s != [] {
      RemoveLength(s[1..], key);
    }
  }

  /** Cutting a list before or after using a key comes to the same. */
  lemma TouchOfTake<K>(s: seq<K>, key: K, limit: nat)
    requires NoDuplicates(s)
    ensures Take(Touch(Take(s, limit), key), limit) == Take(Touch(s, key), limit)
  {
    if |s| > limit {
      var a, b := s[..limit], s[limit..];
      assert s == a + b;
      RemoveOfConcatenation(a, b, key);
      RemoveLength(a, key);
      RemoveMembers(a, key);
    }
  }

  lemma {:induction false} RecencyDistinct<K, V>(keys: seq<K>, entries: seq<Entry<K, V>>)
    requires NoDuplicates(keys)
    ensures NoDuplicates(Recency(keys, entries))
    ensures forall k :: k in Recency(keys, entries) <==> k in keys || k in Effect(entries)
  {
    if entries != [] {
      var n := |entries| - 1;
      RecencyDistinct(keys, entries[..n]);
      TouchDistinct(Recency(keys, entries[..n]), entries[n].key);
      forall k
        ensures k in Recency(keys, entries) <==> k in keys || k in Effect(entries)
      {
        TouchMembers(Recency(keys, entries[..n]), entries[n].key, k);
      }
    }
  }

  /** A cache in step with its list is determined by the list and any map it is part of. */
  lemma TrackedIsRestricted<K, V>(keys: seq<K>, cache: map<K, V>, m: map<K, V>)
    requires Tracks(keys, cache) && SubMap(cache, m)
    ensures cache == Restrict(m, keys)
  {
    forall k | k in Restrict(m, keys)
      ensures k in cache
    {
    }
  }

  lemma PutAddsNothing<K, V>(limit: nat, r: Recent<K, V>, e: Entry<K, V>, m: map<K, V>)
    requires SubMap(r.cache, m)
    ensures SubMap(Put(limit, r, e).cache, m[e.key := e.value])
  {
  }

  lemma PutCuts<K, V>(limit: nat, r: Recent<K, V>, e: Entry<K, V>)
    requires Tracks(r.keys, r.cache) && |r.keys| <= limit && !Misreads(r, e.key)
    ensures Put(limit, r, e).keys == Take(Touch(r.keys, e.key), limit)
  {
    ListedIsTouched(r, e.key);
    RemoveMembers(r.keys, e.key);
    var listed := Touch(r.keys, e.key);
    if |listed| > limit {
      assert |listed| - 1 == limit;
    }
  }

  /** One more key used: if `all` is the list without a limit, and `m` the map without one, they stay so. */
  lemma PutKeepsMostRecent<K, V>(limit: nat, r: Recent<K, V>, e: Entry<K, V>, all: seq<K>, m: map<K, V>)
    requires Tracks(r.keys, r.cache) && NoDuplicates(all) && !Misreads(r, e.key)
    requires r.keys == Take(all, limit) && SubMap(r.cache, m)
    ensures
      var r' := Put(limit, r, e);
      && r'.keys == Take(Touch(all, e.key), limit)
      && r'.cache == Restrict(m[e.key := e.value], r'.keys)
  {
    TouchOfTake(all, e.key, limit);
    PutCuts(limit, r, e);
    PutTracks(limit, r, e);
    PutAddsNothing(limit, r, e, m);
    TrackedIsRestricted(Put(limit, r, e).keys, Put(limit, r, e).cache, m[e.key := e.value]);
  }

  lemma EffectOfLast<K, V>(m: map<K, V>, entries: seq<Entry<K, V>>)
    requires entries != []
    ensures
      var n := |entries| - 1;
      (m + Effect(entries[..n]))[entries[n].key := entries[n].value] == m + Effect(entries)
  {
  }

  /** Dropping the last key whenever there is one too many leaves what cutting once at the end would leave:
      the most recently used keys, each with its last value. */
  lemma {:induction false} PutAllKeepsMostRecent<K, V>(limit: nat, r: Recent<K, V>, entries: seq<Entry<K, V>>)
    requires Tracks(r.keys, r.cache) && |r.keys| <= limit && !PutAll(limit, r, entries).trace.misread
    ensures
      var r' := PutAll(limit, r, entries);
      && r'.keys == Take(Recency(r.keys, entries), limit)
      && r'.cache == Restrict(r.cache + Effect(entries), r'.keys)
  {
    if entries == [] {
      assert r.cache + Effect(entries) == r.cache;
    } else {
      var n := |entries| - 1;
      var mid, m := PutAll(limit, r, entries[..n]), r.cache + Effect(entries[..n]);
      MisreadStays(limit, r, entries);
      PutAllKeepsMostRecent(limit, r, entries[..n]);
      PutAllTracks(limit, r, entries[..n]);
      RecencyDistinct(r.keys, entries[..n]);
      PutKeepsMostRecent(limit, mid, entries[n], Recency(r.keys, entries[..n]), m);
      EffectOfLast(r.cache, entries);
    }
  }

  /** With room for all keys nothing is dropped. */
  lemma NothingDropped<K, V>(limit: nat, r: Recent<K, V>, entries: seq<Entry<K, V>>)
    requires Tracks(r.keys, r.cache) && |r.cache.Keys + Effect(entries).Keys| <= limit
    requires !PutAll(limit, r, entries).trace.misread
    ensures PutAll(limit, r, entries).cache == r.cache + Effect(entries)
  {
    var m, all := r.cache + Effect(entries), Recency(r.keys, entries);
    assert m.Keys == r.cache.Keys + Effect(entries).Keys;
    RecencyDistinct(r.keys, entries);
    assert Tracks(all, m);
    TracksLength(all, m);
    TracksLength(r.keys, r.cache);
    SubsetSize(r.cache.Keys, m.Keys);
    PutAllKeepsMostRecent(limit, r, entries);
    RestrictToAll(m, all);
  }

  lemma RestrictToAll<K, V>(m: map<K, V>, keys: seq<K>)
    requires Tracks(keys, m)
    ensures Restrict(m, keys) == m
  {
  }

  lemma {:induction false} SubsetSize<K>(a: set<K>, b: set<K>)
    requires a <= b
    ensures |a| <= |b|
  {
    assert b == a + (b - a);
  }

  function Keys<K(==)>(s: seq<K>): set<K> {
    set k | k in s
  }

  lemma TouchPosition<K>(s: seq<K>, key: K, j: nat) returns (j': nat)
    requires j < |s| && s[j] != key
    ensures j' < |Touch(s, key)| && Touch(s, key)[j'] == s[j]
    ensures Keys(Touch(s, key)[..j']) == Keys(s[..j]) + {key}
  {
    var before, after := Remove(s[..j], key), Remove(s[j..], key);
    RemoveMembers(s[..j], key);
    assert s == s[..j] + s[j..];
    RemoveOfConcatenation(s[..j], s[j..], key);
    assert after[0] == s[j];
    j' := 1 + |before|;
    assert Touch(s, key)[..j'] == [key] + before;
    KeysOfPush(key, before);
    assert Keys(before) + {key} == Keys(s[..j]) + {key};
  }

  lemma KeysOfPush<K>(key: K, s: seq<K>)
    ensures Keys([key] + s) == Keys(s) + {key}
  {
    assert ([key] + s)[0] == key;
  }

  /** Where a key that is not used again ends up: behind the keys used since and those before it. */
  lemma {:induction false} RecencyPosition<K, V>(keys: seq<K>, entries: seq<Entry<K, V>>, i: nat) returns (j: nat)
    requires i < |keys| && keys[i] !in Effect(entries)
    ensures j < |Recency(keys, entries)| && Recency(keys, entries)[j] == keys[i]
    ensures Keys(Recency(keys, entries)[..j]) == Effect(entries).Keys + Keys(keys[..i])
  {
    if entries == [] {
      j := i;
    } else {
      var n := |entries| - 1;
      j := RecencyPosition(keys, entries[..n], i);
      j := TouchPosition(Recency(keys, entries[..n]), entries[n].key, j);
      assert Effect(entries).Keys == Effect(entries[..n]).Keys + {entries[n].key};
    }
  }

  lemma {:induction false} KeysSize<K>(s: seq<K>)
    requires NoDuplicates(s)
    ensures |Keys(s)| == |s|
  {
    if s != [] {
      var n := |s| - 1;
      KeysSize(s[..n]);
      assert Keys(s) == Keys(s[..n]) + {s[n]};
    }
  }

  /** Which of the old keys stay: one that is used, or that has fewer than `limit` keys before it. */
  lemma StaysIff<K, V>(limit: nat, r: Recent<K, V>, entries: seq<Entry<K, V>>, i: nat)
    requires Tracks(r.keys, r.cache) && |r.keys| <= limit && i < |r.keys| && r.keys[i] !in Effect(entries)
    requires !PutAll(limit, r, entries).trace.misread
    ensures r.keys[i] in PutAll(limit, r, entries).cache <==> |Effect(entries).Keys + Keys(r.keys[..i])| < limit
  {
    PutAllKeepsMostRecent(limit, r, entries);
    var all := Recency(r.keys, entries);
    var j := RecencyPosition(r.keys, entries, i);
    RecencyDistinct(r.keys, entries);
    KeysSize(all[..j]);
    assert r.keys[i] in r.cache + Effect(entries);
    if j < limit {
      assert Take(all, limit)[j] == r.keys[i];
    } else {
      assert r.keys[i] !in all[..limit];
    }
  }
}
