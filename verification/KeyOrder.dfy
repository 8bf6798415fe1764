/** The order of keys in the ordered set that holds a root's cache, and the list that iterating over it gives. */
module KeyOrder {
  import opened Base
  import opened RecentKeys

  /** Lexicographic order of byte strings. */
  predicate Less(a: Bytes, b: Bytes) {
    b != [] && (a == [] || a[0] < b[0] || (a[0] == b[0] && Less(a[1..], b[1..])))
  }

  /** The first byte that differs decides, and a proper prefix comes first. */
  ghost predicate DifferFirstAt(a: Bytes, b: Bytes, n: nat) {
    n <= |a| && n < |b| && a[..n] == b[..n] && (n == |a| || a[n] < b[n])
  }

  lemma {:induction false} LessDiffers(a: Bytes, b: Bytes) returns (n: nat)
    requires Less(a, b)
    ensures DifferFirstAt(a, b, n)
  {
    n := 0;
    if a != [] && a[0] == b[0] {
      var m := LessDiffers(a[1..], b[1..]);
      n := m + 1;
      assert a[..n] == [a[0]] + a[1..][..m] && b[..n] == [b[0]] + b[1..][..m];
    }
  }

  lemma {:induction false} DiffersLess(a: Bytes, b: Bytes, n: nat)
    requires DifferFirstAt(a, b, n)
    ensures Less(a, b)
  {
    if n > 0 {
      assert a[0] == a[..n][0] && b[0] == b[..n][0];
      assert a[1..][..n - 1] == a[..n][1..] && b[1..][..n - 1] == b[..n][1..];
      DiffersLess(a[1..], b[1..], n - 1);
    }
  }

  lemma LessIff(a: Bytes, b: Bytes)
    ensures Less(a, b) <==> exists n: nat :: DifferFirstAt(a, b, n)
  {
    if Less(a, b) {
      var n := LessDiffers(a, b);
    } else if n: nat :| DifferFirstAt(a, b, n) {
      DiffersLess(a, b, n);
    }
  }

  lemma {:induction false} LessIsTotal(a: Bytes, b: Bytes)
    ensures a == b || Less(a, b) || Less(b, a)
    ensures !(Less(a, b) && Less(b, a)) && !Less(a, a)
  {
    if a != [] && b != [] {
      LessIsTotal(a[1..], b[1..]);
      LessIsTotal(a[1..], a[1..]);
      assert a == [a[0]] + a[1..] && b == [b[0]] + b[1..];
    } else if a != [] {
      LessIsTotal(a[1..], a[1..]);
    }
  }

  lemma {:induction false} LessIsTransitive(a: Bytes, b: Bytes, c: Bytes)
    requires Less(a, b) && Less(b, c)
    ensures Less(a, c)
  {
    if a != [] && a[0] == b[0] == c[0] {
      LessIsTransitive(a[1..], b[1..], c[1..]);
    }
  }

  predicate IsLeast(key: Bytes, keys: set<Bytes>) {
    key in keys && forall other | other in keys :: other == key || Less(key, other)
  }

  lemma {:induction false} LeastExists(keys: set<Bytes>)
    requires keys != {}
    ensures exists key :: IsLeast(key, keys)
    decreases |keys|
  {
    var key :| key in keys;
    var rest := keys - {key};
    if rest == {} {
      assert keys == rest + {key};
      assert IsLeast(key, keys);
    } else {
      LeastExists(rest);
      var least :| IsLeast(least, rest);
      LessIsTotal(key, least);
      if Less(key, least) {
        forall other | other in keys
          ensures other == key || Less(key, other)
        {
          if other in rest && other != least {
            LessIsTransitive(key, least, other);
          }
        }
        assert IsLeast(key, keys);
      } else {
        assert IsLeast(least, keys);
      }
    }
  }

  lemma LeastIsUnique(a: Bytes, b: Bytes, keys: set<Bytes>)
    requires IsLeast(a, keys) && IsLeast(b, keys)
    ensures a == b
  {
    LessIsTotal(a, b);
  }

  /** All the keys, the greatest first. */
  ghost function Descending(keys: set<Bytes>): seq<Bytes> {
    if keys == {} then [] else
      LeastExists(keys);
      var least :| IsLeast(least, keys);
      Descending(keys - {least}) + [least]
  }

  lemma {:induction false} DescendingMembers(keys: set<Bytes>)
    ensures forall k :: k in Descending(keys) <==> k in keys
    ensures NoDuplicates(Descending(keys))
    decreases |keys|
  {
    if keys != {} {
      LeastExists(keys);
      var least := Descending(keys)[|Descending(keys)| - 1];
      DescendingMembers(keys - {least});
      assert Descending(keys) == Descending(keys - {least}) + [least];
    }
  }

  /** The list holds each key once and is strictly descending. */
  lemma {:induction false} DescendingIsOrdered(keys: set<Bytes>, i: nat, j: nat)
    requires i < j < |Descending(keys)|
    ensures Less(Descending(keys)[j], Descending(keys)[i])
    decreases |keys|
  {
    var list := Descending(keys);
    var least := list[|list| - 1];
    LeastExists(keys);
    assert IsLeast(least, keys) && list == Descending(keys - {least}) + [least];
    DescendingMembers(keys - {least});
    if j < |list| - 1 {
      DescendingIsOrdered(keys - {least}, i, j);
    } else {
      assert list[i] == Descending(keys - {least})[i];
      assert list[i] in Descending(keys - {least});
    }
  }

  lemma DescendingTracks<V>(cache: map<Bytes, V>)
    ensures Tracks(Descending(cache.Keys), cache)
  {
    DescendingMembers(cache.Keys);
  }

  /** Iterating over the set in order, pushing each key to the front. */
  method ListKeys<V>(cache: map<Bytes, V>) returns (list: seq<Bytes>)
    ensures list == Descending(cache.Keys)
  {
    list := [];
    var left := cache.Keys;
    while left != {}
      invariant Descending(cache.Keys) == Descending(left) + list
    {
      LeastExists(left);
      var next :| next in left && IsLeast(next, left);
      ghost var least := Descending(left)[|Descending(left)| - 1];
      LeastIsUnique(next, least, left);
      list := [next] + list;
      left := left - {next};
    }
  }
}
