/** The leaf cache: a map and a recency list (cache.c). */
module LruCache {
  import opened Common

  /// The list without a key.
  function Drop(ks: seq<nat>, k: nat): seq<nat> {
    if ks == [] then []
    else if ks[|ks|-1] == k then Drop(ks[..|ks|-1], k)
    else Drop(ks[..|ks|-1], k) + [ks[|ks|-1]]
  }

  /// Move to front.
  function Touch(ks: seq<nat>, k: nat): seq<nat> {
    [k] + Drop(ks, k)
  }

  /// The recency list after a use of a key: in front, and the last one dropped when there is no room.
  function Used(ks: seq<nat>, k: nat, cap: nat): seq<nat> {
    var t := Touch(ks, k);
    if |t| > cap then t[..cap] else t
  }

  ghost predicate Distinct(ks: seq<nat>) {
    forall i, j :: 0 <= i < j < |ks| ==> ks[i] != ks[j]
  }

  lemma {:induction false} DropMember(ks: seq<nat>, k: nat, x: nat)
    ensures x in Drop(ks, k) <==> x in ks && x != k
  {
    if ks != [] {
      var n := |ks| - 1;
      assert ks == ks[..n] + [ks[n]];
      DropMember(ks[..n], k, x);
    }
  }

  lemma {:induction false} DropAbsent(ks: seq<nat>, k: nat)
    requires k !in ks
    ensures Drop(ks, k) == ks
  {
    if ks != [] {
      var n := |ks| - 1;
      assert ks == ks[..n] + [ks[n]];
      DropAbsent(ks[..n], k);
    }
  }

  lemma {:induction false} DropDistinct(ks: seq<nat>, k: nat)
    requires Distinct(ks)
    ensures Distinct(Drop(ks, k)) && |Drop(ks, k)| == |ks| - if k in ks then 1 else 0
  {
    if ks != [] {
      var n := |ks| - 1;
      assert ks == ks[..n] + [ks[n]];
      DropDistinct(ks[..n], k);
      DropMember(ks[..n], k, ks[n]);
      var d := Drop(ks[..n], k);
      forall i | 0 <= i < |d| ensures d[i] != ks[n] {
        DropMember(ks[..n], k, d[i]);
      }
    }
  }

  /// Dropping a key from a list and from a prefix of it leaves a prefix.
  lemma {:induction false} DropPrefix(ks: seq<nat>, k: nat, n: nat)
    requires n <= |ks|
    ensures Drop(ks[..n], k) <= Drop(ks, k)
  {
    if n < |ks| {
      var m := |ks| - 1;
      assert ks[..m][..n] == ks[..n];
      DropPrefix(ks[..m], k, n);
    } else {
      assert ks[..n] == ks;
    }
  }

  lemma {:induction false} TouchOk(ks: seq<nat>, k: nat)
    requires Distinct(ks)
    ensures Distinct(Touch(ks, k)) && forall x :: x in Touch(ks, k) <==> x in ks || x == k
    ensures |Touch(ks, k)| == |ks| + if k in ks then 0 else 1
  {
    DropDistinct(ks, k);
    forall x ensures x in Drop(ks, k) <==> x in ks && x != k { DropMember(ks, k, x); }
  }

  class LruCache<V> {
    const capacity: nat
    var size: nat
    var root: map<nat, V>
    /// Most recently used first.
    var entries: seq<nat>
    /// What an unbounded list would hold: every key put and not deleted, most recently used first.
    ghost var recency: seq<nat>

    /// Map and list hold the same keys, each once; the cache is the recent end of the unbounded list.
    ghost predicate Valid()
      reads this
    {
      && capacity >= 1 && size == |entries| <= capacity
      && Distinct(entries) && (forall k :: k in root <==> k in entries)
      && Distinct(recency) && entries <= recency
    }

    constructor (cap: nat)
      requires cap >= 1
      ensures Valid() && capacity == cap && root == map[] && entries == recency == []
    {
      capacity, size, root, entries, recency := cap, 0, map[], [], [];
    }

    /// lru_cache_put: a new key pushes out the least recently used one when the cache is full.
    method Put(k: nat, v: V)
      requires Valid()
      modifies this
      ensures Valid() && recency == Touch(old(recency), k) && entries == Used(old(entries), k, capacity)
      ensures k in old(root) ==> root == old(root)[k := v]
      ensures k !in old(root) && |old(entries)| < capacity ==> root == old(root)[k := v]
      ensures k !in old(root) && |old(entries)| == capacity ==>
        root == (old(root) - {old(entries)[capacity-1]})[k := v]
      ensures |entries| >= 1 && entries[0] == k
    {
      if k in root {
        FrontOk(k);
        root := root[k := v];
        entries := Touch(entries, k);
        recency := Touch(recency, k);
        return;
      }
      DropAbsent(entries, k);
      UsedNew(entries, k, capacity);
      Evict();
      FrontOk(k);
      DropAbsent(entries, k);
      root := root[k := v];
      entries := [k] + entries;
      size := size + 1;
      recency := Touch(recency, k);
    }

    /// Makes room for one more entry.
    method Evict()
      requires Valid()
      modifies this`size, this`entries, this`root
      ensures Valid() && size < capacity
      ensures |old(entries)| < capacity ==> entries == old(entries) && root == old(root)
      ensures |old(entries)| == capacity ==>
        entries == old(entries)[..capacity-1] && root == old(root) - {old(entries)[capacity-1]}
    {
      while size >= capacity
        modifies this`size, this`entries, this`root
        invariant Valid()
        invariant size == capacity ==> entries == old(entries) && root == old(root)
        invariant size < capacity && |old(entries)| < capacity ==> entries == old(entries) && root == old(root)
        invariant size < capacity && |old(entries)| == capacity ==>
          entries == old(entries)[..capacity-1] && root == old(root) - {old(entries)[capacity-1]}
      {
        var last := entries[|entries| - 1];
        assert entries == entries[..|entries|-1] + [last];
        entries := entries[..|entries| - 1];
        root := root - {last};
        size := size - 1;
      }
    }

    /// Moving a key to the front of both lists keeps one a prefix of the other.
    lemma {:induction false} FrontOk(k: nat)
      requires Valid()
      ensures Distinct(Touch(entries, k)) && Distinct(Touch(recency, k)) && Touch(entries, k) <= Touch(recency, k)
      ensures forall x :: x in Touch(entries, k) <==> x in entries || x == k
      ensures |Touch(entries, k)| == |entries| + if k in root then 0 else 1
    {
      TouchOk(recency, k);
      TouchOk(entries, k);
      TouchPrefix(recency, |entries|, k);
      assert recency[..|entries|] == entries;
    }

    /// lru_cache_get.
    method Get(k: nat) returns (r: Option<V>)
      requires Valid()
      modifies this`entries, this`recency
      ensures Valid() && r == if k in root then Some(root[k]) else None
      ensures entries == if k in root then Used(old(entries), k, capacity) else old(entries)
      ensures recency == if k in root then Touch(old(recency), k) else old(recency)
      ensures k in root ==> |entries| >= 1 && entries[0] == k
    {
      if k !in root { return None; }
      FrontOk(k);
      entries := Touch(entries, k);
      recency := Touch(recency, k);
      r := Some(root[k]);
    }

    /// lru_cache_delete.
    method Delete(k: nat)
      requires Valid()
      modifies this
      ensures Valid() && root == old(root) - {k}
      ensures recency == if k in old(root) then Drop(old(recency), k) else old(recency)
    {
      if k in root {
        DropDistinct(entries, k);
        DropDistinct(recency, k);
        DropPrefix(recency, k, |entries|);
        assert recency[..|entries|] == entries;
        forall x ensures x in Drop(entries, k) <==> x in entries && x != k { DropMember(entries, k, x); }
        root := root - {k};
        entries := Drop(entries, k);
        recency := Drop(recency, k);
        size := size - 1;
      } else {
        assert root - {k} == root;
      }
    }
  }

  /// A key that is not listed yet takes the place of the last one when the list is full.
  lemma {:induction false} UsedNew(ks: seq<nat>, k: nat, cap: nat)
    requires cap >= 1 && |ks| <= cap && Drop(ks, k) == ks
    ensures Used(ks, k, cap) == [k] + if |ks| == cap then ks[..cap-1] else ks
  {
    if |ks| == cap { assert ([k] + ks)[..cap] == [k] + ks[..cap-1]; }
  }

  lemma {:induction false} TouchPrefix(ks: seq<nat>, n: nat, k: nat)
    requires n <= |ks|
    ensures Touch(ks[..n], k) <= Touch(ks, k)
  {
    DropPrefix(ks, k, n);
  }
}
