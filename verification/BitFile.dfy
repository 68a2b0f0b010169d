/** Reading an index file: the two-level search over cached inner nodes, the leaf cache, and the
iterator along the leaf chain (lsm_tree.c:456-675, 743-827). */
module BitFile {
  import opened Common
  import opened Tables
  import opened BitTree
  import opened BitShape
  import opened BitBuilder
  import opened LruCache
  import opened LeafCache

  function KidsAt(s: Store, p: nat): seq<Child> {
    if p in s && s[p].Inner? then s[p].kids else []
  }

  /// Index i is the first child whose key is not below k.
  ghost predicate FirstAtLeast(cs: seq<Child>, k: nat, i: nat) {
    i < |cs| && k <= cs[i].key && forall j :: 0 <= j < i ==> cs[j].key < k
  }

  /// What the two loops of the search pick for a key.
  ghost predicate Picks(s: Store, root: nat, k: nat, i: nat, j: nat) {
    && FirstAtLeast(KidsAt(s, root), k, i)
    && FirstAtLeast(KidsAt(s, KidsAt(s, root)[i].pos), k, j)
  }

  function Picked(s: Store, root: nat, i: nat, j: nat): Child
    requires i < |KidsAt(s, root)| && j < |KidsAt(s, KidsAt(s, root)[i].pos)|
  {
    KidsAt(s, KidsAt(s, root)[i].pos)[j]
  }

  /// A three-level tree over the entries.
  ghost predicate ThreeLevels(s: Store, root: nat, es: seq<Entry>) {
    && root in s && s[root].Inner? && Sound(s, 2, ChildOf(s[root], root))
    && Text(s, Under(s, 2, ChildOf(s[root], root))) == es
    && es != [] && Nondecreasing(es)
  }

  lemma {:induction false} RootParts(s: Store, root: nat, es: seq<Entry>)
    requires ThreeLevels(s, root, es)
    ensures SoundAll(s, 1, KidsAt(s, root)) && KidsAt(s, root) != []
    ensures Text(s, UnderAll(s, 1, KidsAt(s, root))) == es && es != [] && Nondecreasing(es)
  {
  }

  lemma {:induction false} InnerParts(s: Store, c: Child)
    requires Sound(s, 1, c)
    ensures SoundAll(s, 0, KidsAt(s, c.pos)) && KidsAt(s, c.pos) != []
    ensures Under(s, 1, c) == UnderAll(s, 0, KidsAt(s, c.pos))
    ensures c.key == KidsAt(s, c.pos)[|KidsAt(s, c.pos)|-1].key
  {
  }

  lemma {:induction false} LeafParts(s: Store, c: Child)
    requires Sound(s, 0, c)
    ensures Text(s, Under(s, 0, c)) == LeafText(s, c.pos) && LeafText(s, c.pos) != []
    ensures LeafText(s, c.pos)[|LeafText(s, c.pos)|-1].key == c.key
  {
    assert [c.pos][..0] == [];
  }

  /// The picked leaf answers for the whole file.
  lemma {:induction false} PickAnswers(s: Store, root: nat, es: seq<Entry>, k: nat, i: nat, j: nat)
    requires ThreeLevels(s, root, es) && Picks(s, root, k, i, j)
    ensures FirstMatch(es, k) == FirstMatch(LeafText(s, Picked(s, root, i, j).pos), k)
    ensures LeafText(s, Picked(s, root, i, j).pos) != []
    ensures var t := LeafText(s, Picked(s, root, i, j).pos); t[|t|-1].key == Picked(s, root, i, j).key
  {
    var cs := KidsAt(s, root);
    var c := cs[i];
    var ds := KidsAt(s, c.pos);
    RootParts(s, root, es);
    assert Sound(s, 1, c);
    PickKid(s, 1, cs, k, i);
    InnerParts(s, c);
    PickKid(s, 0, ds, k, j);
    LeafParts(s, ds[j]);
  }

  /// The two loops arrive at the leaf that the entries alone determine.
  lemma {:induction false} PickedLeaf(l: nat, s: Store, root: nat, es: seq<Entry>, chain: seq<nat>, k: nat, i: nat, j: nat)
    requires ThreeLevels(s, root, es) && Picks(s, root, k, i, j) && l >= 1
    requires chain == UnderAll(s, 1, KidsAt(s, root)) && Linked(l, s, chain, es)
    ensures LeafText(s, Picked(s, root, i, j).pos) == LeafOf(es, l, k)
    ensures Picked(s, root, i, j).key == LeafKey(es, l, k)
  {
    var cs := KidsAt(s, root);
    var c := cs[i];
    var ds := KidsAt(s, c.pos);
    RootParts(s, root, es);
    assert Sound(s, 1, c);
    InnerParts(s, c);
    PickAnswers(s, root, es, k, i, j);
    var a, b := UnderAll(s, 1, cs[..i]), UnderAll(s, 0, ds[..j]);
    BelowKey(s, 1, cs, k, i);
    BelowKey(s, 0, ds, k, j);
    hide *;
    PickedIs(s, root, i, j);
    ChainPlace(s, cs, ds, i, j);
    var m, t := |a + b|, LeafText(s, ds[j].pos);
    TextConcat(s, a, b);
    PlaceText(l, s, chain, es, a + b, ds[j].pos);
    BothBelow(Text(s, a), Text(s, b), k);
    LeafIs(es, l, k, m);
    LeafKeyIs(es, l, k, t);
  }

  lemma {:induction false} LeafKeyIs(es: seq<Entry>, l: nat, k: nat, t: seq<Entry>)
    requires l >= 1 && t == LeafOf(es, l, k) && t != []
    ensures LeafKey(es, l, k) == t[|t|-1].key
  {
  }

  ghost predicate AllBelow(es: seq<Entry>, k: nat) {
    es != [] ==> es[|es|-1].key < k
  }

  lemma {:induction false} BothBelow(a: seq<Entry>, b: seq<Entry>, k: nat)
    requires AllBelow(a, k) && AllBelow(b, k)
    ensures a + b != [] ==> (a + b)[|a + b| - 1].key < k
  {
  }

  /// The subtrees before the chosen child end below the key.
  lemma {:induction false} BelowKey(s: Store, h: nat, cs: seq<Child>, k: nat, i: nat)
    requires SoundAll(s, h, cs) && FirstAtLeast(cs, k, i)
    ensures AllBelow(Text(s, UnderAll(s, h, cs[..i])), k)
  {
    assert SoundAll(s, h, cs[..i]);
    if i == 0 { NoText(s, h); } else { EndsWithAll(s, h, cs[..i]); }
    hide Text, UnderAll, Sound;
  }

  /// Where the chosen leaf stands in the chain.
  lemma {:induction false} ChainPlace(s: Store, cs: seq<Child>, ds: seq<Child>, i: nat, j: nat)
    requires i < |cs| && j < |ds| && Under(s, 1, cs[i]) == UnderAll(s, 0, ds)
    ensures var a, b := UnderAll(s, 1, cs[..i]), UnderAll(s, 0, ds[..j]); var chain := UnderAll(s, 1, cs);
      |a + b| < |chain| && chain[..|a + b|] == a + b && chain[|a + b|] == ds[j].pos
  {
    hide *;
    var a, b, d := UnderAll(s, 1, cs[..i]), UnderAll(s, 0, ds[..j]), UnderAll(s, 0, ds[j+1..]);
    var z := UnderAll(s, 1, cs[i+1..]);
    assert cs == cs[..i] + [cs[i]] + cs[i+1..] && ds == ds[..j] + [ds[j]] + ds[j+1..];
    UnderConcat(s, 1, cs[..i] + [cs[i]], cs[i+1..]);
    UnderConcat(s, 1, cs[..i], [cs[i]]);
    UnderOne(s, 1, cs[i]);
    UnderConcat(s, 0, ds[..j] + [ds[j]], ds[j+1..]);
    UnderConcat(s, 0, ds[..j], [ds[j]]);
    UnderOne(s, 0, ds[j]);
    UnderLeaf(s, ds[j]);
    assert UnderAll(s, 1, cs) == (a + b) + ([ds[j].pos] + d + z);
  }

  lemma {:induction false} UnderLeaf(s: Store, c: Child)
    ensures Under(s, 0, c) == [c.pos]
  {
  }

  /// The entries before a leaf of the chain are those of the leaves before it.
  lemma {:induction false} PlaceText(l: nat, s: Store, chain: seq<nat>, es: seq<Entry>, before: seq<nat>, p: nat)
    requires Linked(l, s, chain, es) && |before| < |chain| && chain[..|before|] == before && chain[|before|] == p
    requires LeafText(s, p) != []
    ensures var m := |before|; LeafText(s, p) == Piece(l, es, m) && l * m < |es| && Text(s, before) == es[..l * m]
  {
    var m := |before|;
    assert forall i :: 0 <= i < m ==> before[i] == chain[i];
    ChainText(l, s, before, es);
    hide Text, LeafText;
  }

  /// A key up to the last one finds a child in both loops.
  lemma {:induction false} RootReaches(s: Store, root: nat, es: seq<Entry>)
    requires ThreeLevels(s, root, es)
    ensures KidsAt(s, root) != [] && KidsAt(s, root)[|KidsAt(s, root)|-1].key == es[|es|-1].key
    ensures forall i :: 0 <= i < |KidsAt(s, root)| ==>
      KidsAt(s, KidsAt(s, root)[i].pos) != [] &&
      KidsAt(s, root)[i].key == KidsAt(s, KidsAt(s, root)[i].pos)[|KidsAt(s, KidsAt(s, root)[i].pos)|-1].key
  {
    var cs := KidsAt(s, root);
    RootParts(s, root, es);
    EndsWithAll(s, 1, cs);
    hide Text, Under, UnderAll, Nondecreasing;
    forall i | 0 <= i < |cs|
      ensures KidsAt(s, cs[i].pos) != [] && cs[i].key == KidsAt(s, cs[i].pos)[|KidsAt(s, cs[i].pos)|-1].key
    {
      assert Sound(s, 1, cs[i]);
      InnerParts(s, cs[i]);
    }
  }

  // ---------------------------------------------------------------- one leaf for every cache key

  /// Children of one level have non-decreasing keys.
  lemma {:induction false} KidsSorted(s: Store, h: nat, cs: seq<Child>, a: nat, b: nat)
    requires SoundAll(s, h, cs) && Nondecreasing(Text(s, UnderAll(s, h, cs))) && a <= b < |cs|
    ensures cs[a].key <= cs[b].key
  {
    if a < b {
      var u, v, w := cs[..a+1], cs[a+1..b+1], cs[b+1..];
      assert SoundAll(s, h, u) && SoundAll(s, h, v);
      assert cs == u + v + w && u[|u|-1] == cs[a] && v[|v|-1] == cs[b];
      hide *;
      NeighboursSorted(s, h, u, v, w);
    }
  }

  lemma {:induction false} NeighboursSorted(s: Store, h: nat, u: seq<Child>, v: seq<Child>, w: seq<Child>)
    requires SoundAll(s, h, u) && SoundAll(s, h, v) && u != [] && v != []
    requires Nondecreasing(Text(s, UnderAll(s, h, u + v + w)))
    ensures u[|u|-1].key <= v[|v|-1].key
  {
    hide *;
    var x, y, z := Text(s, UnderAll(s, h, u)), Text(s, UnderAll(s, h, v)), Text(s, UnderAll(s, h, w));
    UnderConcat(s, h, u + v, w);
    UnderConcat(s, h, u, v);
    TextConcat(s, UnderAll(s, h, u + v), UnderAll(s, h, w));
    TextConcat(s, UnderAll(s, h, u), UnderAll(s, h, v));
    EndsWithAll(s, h, u);
    EndsWithAll(s, h, v);
    PartsNondecreasing(x + y, z);
    PartsNondecreasing(x, y);
  }

  /// Two searches that arrive at the same leaf key arrive at the same leaf.
  lemma {:induction false} SameLeaf(s: Store, root: nat, es: seq<Entry>, k: nat, i: nat, j: nat, k': nat, i': nat, j': nat)
    requires ThreeLevels(s, root, es) && Picks(s, root, k, i, j) && Picks(s, root, k', i', j')
    requires Picked(s, root, i, j).key == Picked(s, root, i', j').key
    ensures i == i' && j == j'
  {
    var lk := Picked(s, root, i, j).key;
    LeafKeyBelow(s, root, es, i, j);
    LeafKeyBelow(s, root, es, i', j');
    hide ThreeLevels, Nondecreasing;
    var cs := KidsAt(s, root);
    assert k <= lk && k' <= lk;
    Skipped(cs, k', i', i);
    Skipped(cs, k, i, i');
  }

  lemma {:induction false} Skipped(cs: seq<Child>, k: nat, i: nat, j: nat)
    requires FirstAtLeast(cs, k, i)
    ensures j < i ==> j < |cs| && cs[j].key < k
  {
  }

  lemma {:induction false} LeafKeyBelow(s: Store, root: nat, es: seq<Entry>, i: nat, j: nat)
    requires ThreeLevels(s, root, es) && i < |KidsAt(s, root)| && j < |KidsAt(s, KidsAt(s, root)[i].pos)|
    ensures Picked(s, root, i, j).key <= KidsAt(s, root)[i].key
  {
    var cs := KidsAt(s, root);
    var c := cs[i];
    var ds := KidsAt(s, c.pos);
    RootParts(s, root, es);
    assert Sound(s, 1, c);
    InnerParts(s, c);
    hide Sound, Text, Under, UnderAll, ThreeLevels;
    KidText(s, cs, i);
    KidsSorted(s, 0, ds, j, |ds| - 1);
  }

  lemma {:induction false} KidText(s: Store, cs: seq<Child>, i: nat)
    requires Nondecreasing(Text(s, UnderAll(s, 1, cs))) && i < |cs|
    ensures Nondecreasing(Text(s, Under(s, 1, cs[i])))
  {
    hide *;
    TextSplit(s, 1, cs, i);
    var a, b := Text(s, UnderAll(s, 1, cs[..i])), Text(s, Under(s, 1, cs[i]));
    PartsNondecreasing(a + b, Text(s, UnderAll(s, 1, cs[i+1..])));
    PartsNondecreasing(a, b);
  }

  /// Every cached leaf is the leaf that a search for its key reads from the file.
  ghost predicate CacheOk(s: Store, root: nat, cached: map<nat, seq<Entry>>) {
    forall k, i, j {:trigger Picks(s, root, k, i, j)} ::
      Picks(s, root, k, i, j) && Picked(s, root, i, j).key in cached ==>
        cached[Picked(s, root, i, j).key] == LeafText(s, Picked(s, root, i, j).pos)
  }

  lemma {:induction false} CacheAdd(s: Store, root: nat, es: seq<Entry>, cached: map<nat, seq<Entry>>, k: nat, i: nat, j: nat)
    requires ThreeLevels(s, root, es) && CacheOk(s, root, cached) && Picks(s, root, k, i, j)
    ensures var c := Picked(s, root, i, j); CacheOk(s, root, cached[c.key := LeafText(s, c.pos)])
  {
    var c := Picked(s, root, i, j);
    var cached' := cached[c.key := LeafText(s, c.pos)];
    hide ThreeLevels;
    forall k', i', j' | Picks(s, root, k', i', j') && Picked(s, root, i', j').key in cached'
      ensures cached'[Picked(s, root, i', j').key] == LeafText(s, Picked(s, root, i', j').pos)
    {
      if Picked(s, root, i', j').key == c.key { SameLeaf(s, root, es, k, i, j, k', i', j'); }
    }
  }

  lemma {:induction false} CacheFewer(s: Store, root: nat, cached: map<nat, seq<Entry>>, x: nat)
    requires CacheOk(s, root, cached)
    ensures CacheOk(s, root, cached - {x})
  {
  }

  // ---------------------------------------------------------------- the open file

  lemma {:induction false} HoldsThree(g: Geometry, s: Store, root: nat, es: seq<Entry>, chain: seq<nat>, start: nat)
    requires FileHolds(g, s, root, es, chain, start) && g.height == 3 && es != [] && Nondecreasing(es)
    ensures ThreeLevels(s, root, es) && chain == UnderAll(s, 1, KidsAt(s, root)) && Linked(g.leafLen, s, chain, es)
    ensures g.leafLen >= 1
  {
  }

  /// The first child whose key is not below `k`, or the number of children.
  method FirstIndex(cs: seq<Child>, k: nat) returns (i: nat)
    ensures i <= |cs| && (forall j :: 0 <= j < i ==> cs[j].key < k) && (i < |cs| ==> k <= cs[i].key)
  {
    i := 0;
    while i < |cs|
      invariant i <= |cs| && forall j :: 0 <= j < i ==> cs[j].key < k
    {
      if k <= cs[i].key { break; }
      i := i + 1;
    }
  }

  /// The inner nodes below the root, read once.
  method ReadInner(s: Store, kids: seq<Child>) returns (nodes: seq<seq<Child>>)
    requires forall i :: 0 <= i < |kids| ==> KidsAt(s, kids[i].pos) != []
    ensures |nodes| == |kids| && forall i :: 0 <= i < |kids| ==> nodes[i] == KidsAt(s, kids[i].pos)
  {
    nodes := [];
    for i := 0 to |kids|
      invariant |nodes| == i && forall j :: 0 <= j < i ==> nodes[j] == KidsAt(s, kids[j].pos)
    {
      assert KidsAt(s, kids[i].pos) != [];
      nodes := nodes + [s[kids[i].pos].kids];
    }
  }

  /// The first record with the key in one leaf.
  method ScanLeaf(leaf: seq<Entry>, k: nat) returns (r: Option<Record>)
    ensures r == FirstMatch(leaf, k)
  {
    for m := 0 to |leaf|
      invariant forall n :: 0 <= n < m ==> leaf[n].key != k
    {
      if leaf[m].key == k {
        FirstMatchAt(leaf, k, m);
        return Some(leaf[m].rec);
      }
    }
    FirstMatchNone(leaf, k);
    r := None;
  }

  /// What a range search has added for the keys from `start` up to `upto`: a record for every key that is
  /// stored and was not found before, namely the one its leaf gives with the cache as it is by then.
  ghost predicate Ranged(es: seq<Entry>, l: nat, cs: seq<nat>, start: nat, upto: nat, results0: map<nat, Record>, found0: set<nat>,
                         results: map<nat, Record>, found: set<nat>)
    requires l >= 1
  {
    && (forall k :: k in found <==> k in found0 || (start <= k < upto && FirstMatch(es, k).Some?))
    && (forall k :: k in results <==> k in results0 || (k in found && k !in found0))
    && (forall k :: k in results0 && (k in found0 || k !in found) ==> results[k] == results0[k])
    && (forall k :: k in found && k !in found0 ==> Some(results[k]) == RangeRecord(es, l, cs, found0, start, k))
  }

  function RangeRecord(es: seq<Entry>, l: nat, cs: seq<nat>, found: set<nat>, start: nat, k: nat): Option<Record>
    requires l >= 1
  {
    Taken(es, l, CacheAt(es, l, MAX_LEAF_NODE_CACHED, cs, found, start, k), k)
  }

  lemma {:induction false} RangeStart(es: seq<Entry>, l: nat, cs: seq<nat>, start: nat, results0: map<nat, Record>, found0: set<nat>)
    requires l >= 1
    ensures Ranged(es, l, cs, start, start, results0, found0, results0, found0)
    ensures CacheAt(es, l, MAX_LEAF_NODE_CACHED, cs, found0, start, start) == cs
  {
  }

  /// A stretch without stored keys, outside the file's range, changes nothing.
  lemma {:induction false} RangeSkip(es: seq<Entry>, l: nat, cs: seq<nat>, start: nat, upto: nat, upto': nat, results0: map<nat, Record>,
                                     found0: set<nat>, results: map<nat, Record>, found: set<nat>)
    requires l >= 1 && Ranged(es, l, cs, start, upto, results0, found0, results, found) && es != []
    requires forall k: nat :: !InKeys(es, k) ==> FirstMatch(es, k).None?
    requires upto <= upto' && (upto' <= es[0].key || es[|es|-1].key < upto)
    ensures Ranged(es, l, cs, start, upto', results0, found0, results, found)
  {
    forall k: nat | upto <= k < upto' ensures FirstMatch(es, k).None? { assert !InKeys(es, k); }
    hide FirstMatch, RangeRecord;
  }

  lemma {:induction false} CacheIdle(es: seq<Entry>, l: nat, cs: seq<nat>, found: set<nat>, start: nat, upto: nat, upto': nat)
    requires l >= 1 && es != [] && start <= upto <= upto' && (upto' <= es[0].key || es[|es|-1].key < upto)
    ensures var cap := MAX_LEAF_NODE_CACHED;
      CacheAt(es, l, cap, cs, found, start, upto') == CacheAt(es, l, cap, cs, found, start, upto)
    decreases upto' - upto
  {
    if upto < upto' {
      CacheIdle(es, l, cs, found, start, upto, upto' - 1);
      assert !InKeys(es, upto' - 1);
      hide Used, LeafKey, FirstMatch;
    }
  }

  /// A search that began behind its end has nothing to do.
  lemma {:induction false} RangeNone(es: seq<Entry>, l: nat, cs: seq<nat>, start: nat, end: nat, results0: map<nat, Record>, found0: set<nat>)
    requires l >= 1 && end < start
    ensures Ranged(es, l, cs, start, end + 1, results0, found0, results0, found0)
    ensures CacheAt(es, l, MAX_LEAF_NODE_CACHED, cs, found0, start, end + 1) == cs
  {
    hide FirstMatch, RangeRecord;
  }

  /// A key already found, or not stored, needs nothing.
  lemma {:induction false} RangeKey(es: seq<Entry>, l: nat, cs: seq<nat>, start: nat, key: nat, results0: map<nat, Record>,
                                    found0: set<nat>, results: map<nat, Record>, found: set<nat>)
    requires l >= 1 && start <= key && Ranged(es, l, cs, start, key, results0, found0, results, found)
    ensures key in found || FirstMatch(es, key).None? ==>
      Ranged(es, l, cs, start, key + 1, results0, found0, results, found)
    ensures key in found <==> key in found0
    ensures CacheAt(es, l, MAX_LEAF_NODE_CACHED, cs, found0, start, key + 1) ==
      var c := CacheAt(es, l, MAX_LEAF_NODE_CACHED, cs, found0, start, key);
      if key in found0 then c else Ask(es, l, MAX_LEAF_NODE_CACHED, c, key)
  {
    hide FirstMatch, RangeRecord, Ask;
  }

  lemma {:induction false} RangeFound(es: seq<Entry>, l: nat, cs: seq<nat>, start: nat, key: nat, results0: map<nat, Record>,
                                      found0: set<nat>, results: map<nat, Record>, found: set<nat>, r: Record)
    requires l >= 1 && Ranged(es, l, cs, start, key, results0, found0, results, found) && start <= key && key !in found
    requires FirstMatch(es, key).Some? && Some(r) == RangeRecord(es, l, cs, found0, start, key)
    ensures Ranged(es, l, cs, start, key + 1, results0, found0, results[key := r], found + {key})
  {
    hide FirstMatch, RangeRecord;
  }

  lemma {:induction false} RecordIs(es: seq<Entry>, l: nat, cs: seq<nat>, found: set<nat>, start: nat, k: nat)
    requires l >= 1 && InKeys(es, k)
    ensures var c := CacheAt(es, l, MAX_LEAF_NODE_CACHED, cs, found, start, k);
      RangeRecord(es, l, cs, found, start, k) == if LeafKey(es, l, k) in c then FirstMatch(es, k) else LastMatch(LeafOf(es, l, k), k)
  {
    hide CacheAt, LeafKey, LeafOf, FirstMatch, LastMatch;
  }

  /// The last record with the key in one leaf: every match overwrites the one before.
  method LastInLeaf(leaf: seq<Entry>, k: nat) returns (r: Option<Record>)
    ensures r == LastMatch(leaf, k)
  {
    r := None;
    for m := 0 to |leaf|
      invariant r == LastMatch(leaf[..m], k)
    {
      assert leaf[..m+1][..m] == leaf[..m];
      if leaf[m].key == k { r := Some(leaf[m].rec); }
    }
    assert leaf[..|leaf|] == leaf;
  }

  lemma {:induction false} PickedIs(s: Store, root: nat, i: nat, j: nat)
    requires i < |KidsAt(s, root)| && j < |KidsAt(s, KidsAt(s, root)[i].pos)|
    ensures Picked(s, root, i, j) == KidsAt(s, KidsAt(s, root)[i].pos)[j]
  {
  }

  /// A leaf has a first record of a key exactly when it has a last one.
  lemma {:induction false} EitherEnd(t: seq<Entry>, k: nat)
    ensures FirstMatch(t, k).Some? <==> LastMatch(t, k).Some?
  {
    FirstMatchNone(t, k);
    LastMatchNone(t, k);
    hide FirstMatch, LastMatch;
  }

  lemma {:induction false} LeafIsThere(s: Store, p: nat)
    requires LeafText(s, p) != []
    ensures p in s && s[p].Leaf? && s[p].es == LeafText(s, p)
  {
  }

  lemma {:induction false} KidsThere(s: Store, p: nat)
    requires KidsAt(s, p) != []
    ensures p in s && s[p].Inner? && s[p].kids == KidsAt(s, p)
  {
  }

  lemma {:induction false} EmptyCacheOk(s: Store, root: nat)
    ensures CacheOk(s, root, map[])
  {
  }

  lemma {:induction false} PicksAre(s: Store, root: nat, k: nat, i: nat, j: nat)
    requires i < |KidsAt(s, root)| && k <= KidsAt(s, root)[i].key && forall m :: 0 <= m < i ==> KidsAt(s, root)[m].key < k
    requires var ds := KidsAt(s, KidsAt(s, root)[i].pos);
      j < |ds| && k <= ds[j].key && forall m :: 0 <= m < j ==> ds[m].key < k
    ensures Picks(s, root, k, i, j) && Picked(s, root, i, j) == KidsAt(s, KidsAt(s, root)[i].pos)[j]
  {
  }

  lemma {:induction false} OutOfKeys(es: seq<Entry>, k: nat)
    requires Nondecreasing(es) && es != [] && (k < es[0].key || k > es[|es|-1].key)
    ensures FirstMatch(es, k).None?
  {
    FirstMatchNone(es, k);
    hide FirstMatch;
    forall i | 0 <= i < |es| ensures es[i].key != k {
      assert es[0].key <= es[i].key <= es[|es|-1].key;
    }
  }

  lemma {:induction false} InKeysIs(es: seq<Entry>, k: nat)
    requires es != []
    ensures InKeys(es, k) <==> es[0].key <= k <= es[|es|-1].key
  {
  }

  class BitFile {
    const g: Geometry
    const file: Store
    const root: nat
    const firstKey: nat
    const lastKey: nat
    const nrRecord: nat
    const cachedLeaf: LruCache<seq<Entry>>
    var cachedRoot: seq<Child>
    var childNodes: seq<seq<Child>>
    /// The entries the file was built from, and its leaves.
    ghost const es: seq<Entry>
    ghost const chain: seq<nat>

    /// What the file and its cached inner nodes are.
    ghost predicate FileValid()
      reads this
    {
      && g.leafLen >= 1 && ThreeLevels(file, root, es) && chain == UnderAll(file, 1, KidsAt(file, root))
      && Linked(g.leafLen, file, chain, es)
      && firstKey == es[0].key && lastKey == es[|es|-1].key && nrRecord == |es|
      && cachedRoot == KidsAt(file, root) && |childNodes| == |cachedRoot|
      && (forall i :: 0 <= i < |cachedRoot| ==> childNodes[i] == KidsAt(file, cachedRoot[i].pos))
    }

    ghost predicate Valid()
      reads this, cachedLeaf
    {
      && FileValid() && cachedLeaf.Valid() && cachedLeaf.capacity == MAX_LEAF_NODE_CACHED
      && CacheOk(file, root, cachedLeaf.root)
    }

    /// bit_file_init, with bit_file_build_cached_root.
    constructor (geometry: Geometry, store: Store, rootPos: nat, first: nat, last: nat, nr: nat,
                 ghost entries: seq<Entry>, ghost leaves: seq<nat>, ghost start: nat)
      requires FileHolds(geometry, store, rootPos, entries, leaves, start) && geometry.height == 3
      requires entries != [] && Nondecreasing(entries)
      requires first == entries[0].key && last == entries[|entries|-1].key && nr == |entries|
      ensures Valid() && fresh(cachedLeaf) && es == entries && file == store && g == geometry && cachedLeaf.entries == []
    {
      assert MAX_LEAF_NODE_CACHED >= 1;
      hide *;
      HoldsThree(geometry, store, rootPos, entries, leaves, start);
      RootReaches(store, rootPos, entries);
      KidsThere(store, rootPos);
      g, file, root, firstKey, lastKey, nrRecord := geometry, store, rootPos, first, last, nr;
      es, chain := entries, leaves;
      cachedLeaf := new LruCache(MAX_LEAF_NODE_CACHED);
      cachedRoot := store[rootPos].kids;
      var nodes := ReadInner(store, store[rootPos].kids);
      childNodes := nodes;
      new;
      Opened();
    }

    lemma {:induction false} Opened()
      requires g.leafLen >= 1 && ThreeLevels(file, root, es) && chain == UnderAll(file, 1, KidsAt(file, root))
      requires Linked(g.leafLen, file, chain, es) && es != []
      requires firstKey == es[0].key && lastKey == es[|es|-1].key && nrRecord == |es|
      requires cachedRoot == KidsAt(file, root) && |childNodes| == |cachedRoot|
      requires forall i :: 0 <= i < |cachedRoot| ==> childNodes[i] == KidsAt(file, cachedRoot[i].pos)
      requires cachedLeaf.Valid() && cachedLeaf.root == map[] && cachedLeaf.capacity == MAX_LEAF_NODE_CACHED
      ensures Valid()
    {
      EmptyCacheOk(file, root);
      hide ThreeLevels, Linked, UnderAll, CacheOk, KidsAt;
    }

    lemma {:induction false} SearchParts()
      requires Valid()
      ensures FileValid() && firstKey <= lastKey && firstKey == es[0].key && lastKey == es[|es|-1].key && es != [] && Nondecreasing(es)
      ensures ThreeLevels(file, root, es) && CacheOk(file, root, cachedLeaf.root) && cachedLeaf.Valid() && g.leafLen >= 1
      ensures cachedRoot == KidsAt(file, root) && |childNodes| == |cachedRoot| >= 1
      ensures forall i :: 0 <= i < |cachedRoot| ==> childNodes[i] == KidsAt(file, cachedRoot[i].pos)
      ensures cachedRoot[|cachedRoot|-1].key == lastKey
      ensures forall i :: 0 <= i < |cachedRoot| ==> childNodes[i] != [] && childNodes[i][|childNodes[i]|-1].key == cachedRoot[i].key
    {
      RootReaches(file, root, es);
      assert Nondecreasing(es) && es != [];
      hide ThreeLevels, Linked, UnderAll, CacheOk, Nondecreasing;
    }

    lemma {:induction false} CacheParts()
      requires Valid()
      ensures cachedLeaf.capacity == MAX_LEAF_NODE_CACHED && (forall x :: x in cachedLeaf.root <==> x in cachedLeaf.entries)
    {
      hide FileValid, CacheOk;
    }

    /// bit_file_search_leaf_key_pos: the leaf that may hold a key, for keys in the file's range.
    method SearchLeafKeyPos(k: nat) returns (found: bool, leafKey: nat, leafPos: nat, ghost i0: nat, ghost j0: nat)
      requires Valid()
      ensures found <==> firstKey <= k <= lastKey
      ensures found <==> InKeys(es, k)
      ensures found ==> Picks(file, root, k, i0, j0) && i0 < |KidsAt(file, root)| && j0 < |KidsAt(file, KidsAt(file, root)[i0].pos)|
      ensures found ==> leafKey == Picked(file, root, i0, j0).key && leafPos == Picked(file, root, i0, j0).pos
      ensures g.leafLen >= 1 && (found ==> leafKey == LeafKey(es, g.leafLen, k) && LeafText(file, leafPos) == LeafOf(es, g.leafLen, k))
    {
      hide *;
      SearchParts();
      KeysAre(k);
      found, leafKey, leafPos, i0, j0 := false, 0, 0, 0, 0;
      if k < firstKey || k > lastKey { return; }
      var i := FirstIndex(cachedRoot, k);
      var inner := childNodes[i];
      var j := FirstIndex(inner, k);
      PicksAre(file, root, k, i, j);
      LeafFound(k, i, j);
      return true, inner[j].key, inner[j].pos, i, j;
    }

    lemma {:induction false} KeysAre(k: nat)
      requires Valid()
      ensures InKeys(es, k) <==> firstKey <= k <= lastKey
    {
      hide *;
      SearchParts();
      InKeysIs(es, k);
    }

    lemma {:induction false} LeafFound(k: nat, i: nat, j: nat)
      requires Valid() && Picks(file, root, k, i, j)
      requires i < |KidsAt(file, root)| && j < |KidsAt(file, KidsAt(file, root)[i].pos)|
      ensures g.leafLen >= 1 && LeafText(file, Picked(file, root, i, j).pos) == LeafOf(es, g.leafLen, k)
      ensures Picked(file, root, i, j).key == LeafKey(es, g.leafLen, k)
    {
      PickedLeaf(g.leafLen, file, root, es, chain, k, i, j);
      hide ThreeLevels, Linked, UnderAll, CacheOk, Picks, LeafOf, LeafKey;
    }

    /// Outside the key range there is nothing to find.
    lemma {:induction false} OutOfRange(k: nat)
      requires Valid() && !(firstKey <= k <= lastKey)
      ensures FirstMatch(es, k).None?
    {
      assert Nondecreasing(es) && es != [] && firstKey == es[0].key && lastKey == es[|es|-1].key;
      hide *;
      OutOfKeys(es, k);
    }

    /// bit_file_search_leaf: the leaf as read from the file, if it has the key.
    method SearchLeaf(k: nat) returns (r: Option<Node>, ghost i: nat, ghost j: nat)
      requires Valid()
      ensures g.leafLen >= 1 && (r.None? <==> FirstMatch(es, k).None?)
      ensures r.Some? ==> Picks(file, root, k, i, j) && i < |KidsAt(file, root)| && j < |KidsAt(file, KidsAt(file, root)[i].pos)|
      ensures r.Some? ==> r.value.Leaf? && Picked(file, root, i, j).pos in file
      ensures r.Some? ==> r.value == file[Picked(file, root, i, j).pos] && r.value.es != []
      ensures r.Some? ==> r.value.es[|r.value.es|-1].key == Picked(file, root, i, j).key == LeafKey(es, g.leafLen, k)
      ensures r.Some? ==> r.value.es == LeafOf(es, g.leafLen, k) && FirstMatch(es, k) == FirstMatch(r.value.es, k)
      ensures r.Some? ==> InKeys(es, k)
    {
      hide *;
      SearchParts();
      var found: bool, leafKey: nat, leafPos: nat;
      found, leafKey, leafPos, i, j := SearchLeafKeyPos(k);
      if !found {
        OutOfRange(k);
        return None, i, j;
      }
      PickAnswers(file, root, es, k, i, j);
      LeafIsThere(file, leafPos);
      var leaf := file[leafPos];
      var m := ScanLeaf(leaf.es, k);
      r := if m.Some? then Some(leaf) else None;
    }

    /// The cache after a look into it alone.
    ghost function Looked(cs: seq<nat>, k: nat): seq<nat>
      requires g.leafLen >= 1
    {
      if InKeys(es, k) && LeafKey(es, g.leafLen, k) in cs then Used(cs, LeafKey(es, g.leafLen, k), MAX_LEAF_NODE_CACHED) else cs
    }

    lemma {:induction false} LookedIs(cs: seq<nat>, k: nat)
      requires g.leafLen >= 1
      ensures var x := LeafKey(es, g.leafLen, k);
        && (InKeys(es, k) && x in cs ==> Looked(cs, k) == Used(cs, x, MAX_LEAF_NODE_CACHED) == Ask(es, g.leafLen, MAX_LEAF_NODE_CACHED, cs, k))
        && (!(InKeys(es, k) && x in cs) ==> Looked(cs, k) == cs)
        && (InKeys(es, k) && x !in cs && FirstMatch(es, k).Some? ==>
              Ask(es, g.leafLen, MAX_LEAF_NODE_CACHED, cs, k) == Used(cs, x, MAX_LEAF_NODE_CACHED))
        && (!(InKeys(es, k) && x in cs) && FirstMatch(es, k).None? ==> Ask(es, g.leafLen, MAX_LEAF_NODE_CACHED, cs, k) == cs)
    {
      hide Used, LeafKey, FirstMatch, InKeys;
    }

    /// bit_file_search_cached_leaf.
    method SearchCachedLeaf(k: nat) returns (r: Option<Record>)
      requires Valid()
      modifies cachedLeaf
      ensures Valid() && g.leafLen >= 1
      ensures r.Some? ==> r == FirstMatch(es, k)
      ensures r.Some? <==> InKeys(es, k) && LeafKey(es, g.leafLen, k) in old(cachedLeaf.entries) && FirstMatch(es, k).Some?
      ensures cachedLeaf.entries == Looked(old(cachedLeaf.entries), k)
    {
      hide *;
      SearchParts();
      CacheParts();
      var found, leafKey, leafPos, i, j := SearchLeafKeyPos(k);
      LookedIs(cachedLeaf.entries, k);
      if !found { return None; }
      PickAnswers(file, root, es, k, i, j);
      CachedText(k, i, j);
      var leaf := cachedLeaf.Get(leafKey);
      CacheValid();
      if leaf.None? { return None; }
      r := ScanLeaf(leaf.value, k);
    }

    lemma {:induction false} CachedText(k: nat, i: nat, j: nat)
      requires Valid() && Picks(file, root, k, i, j)
      requires i < |KidsAt(file, root)| && j < |KidsAt(file, KidsAt(file, root)[i].pos)|
      ensures var c := Picked(file, root, i, j); c.key in cachedLeaf.root ==> cachedLeaf.root[c.key] == LeafText(file, c.pos)
    {
      hide ThreeLevels, Linked, UnderAll, FileValid;
    }

    /// bit_file_search: whatever the cache holds, the first record with the key.
    method Search(k: nat) returns (r: Option<Record>)
      requires Valid()
      modifies cachedLeaf
      ensures Valid() && r == FirstMatch(es, k) && g.leafLen >= 1
      ensures cachedLeaf.entries == Ask(es, g.leafLen, MAX_LEAF_NODE_CACHED, old(cachedLeaf.entries), k)
    {
      hide *;
      SearchParts();
      CacheParts();
      ghost var cs := cachedLeaf.entries;
      LookedIs(cs, k);
      r := SearchCachedLeaf(k);
      if r.Some? { return; }
      var leaf, i, j := SearchLeaf(k);
      if leaf.None? {
        r := None;
        return;
      }
      CacheLeaf(leaf.value, k, i, j);
      r := ScanLeaf(leaf.value.es, k);
    }

    /// The leaf just read goes into the cache under its last key.
    method CacheLeaf(leaf: Node, ghost k: nat, ghost i: nat, ghost j: nat)
      requires Valid() && Picks(file, root, k, i, j) && i < |KidsAt(file, root)| && j < |KidsAt(file, KidsAt(file, root)[i].pos)|
      requires leaf.Leaf? && leaf.es != [] && Picked(file, root, i, j).pos in file && leaf == file[Picked(file, root, i, j).pos]
      requires leaf.es[|leaf.es|-1].key == Picked(file, root, i, j).key
      modifies cachedLeaf
      ensures Valid()
      ensures cachedLeaf.entries == Used(old(cachedLeaf.entries), leaf.es[|leaf.es|-1].key, MAX_LEAF_NODE_CACHED)
    {
      hide *;
      SearchParts();
      CacheParts();
      ghost var before, c := cachedLeaf.root, Picked(file, root, i, j);
      SameText(file, c.pos);
      CacheAdd(file, root, es, before, k, i, j);
      if |cachedLeaf.entries| == cachedLeaf.capacity {
        Evicted(cachedLeaf);
        ghost var x := cachedLeaf.entries[cachedLeaf.capacity-1];
        CacheFewer(file, root, before, x);
        CacheAdd(file, root, es, before - {x}, k, i, j);
      }
      CacheSize(cachedLeaf);
      cachedLeaf.Put(leaf.es[|leaf.es|-1].key, leaf.es);
      CacheValid();
    }

    /// bit_file_range_search: the records of the keys start..end that are not found yet, and the cache
    /// afterwards.  A cached leaf gives the first record of a key, a leaf just read the last one it holds.
    method RangeSearch(start: nat, end: nat, results0: map<nat, Record>, found0: set<nat>)
      returns (results: map<nat, Record>, found: set<nat>)
      requires Valid()
      modifies cachedLeaf
      ensures Valid() && g.leafLen >= 1
      ensures Ranged(es, g.leafLen, old(cachedLeaf.entries), start, end + 1, results0, found0, results, found)
      ensures cachedLeaf.entries ==
        CacheAt(es, g.leafLen, MAX_LEAF_NODE_CACHED, old(cachedLeaf.entries), found0, start, end + 1)
    {
      hide *;
      results, found := results0, found0;
      ghost var cs := cachedLeaf.entries;
      NothingOutside();
      SearchParts();
      RangeStart(es, g.leafLen, cs, start, results0, found0);
      if end < start {
        RangeNone(es, g.leafLen, cs, start, end, results0, found0);
        return;
      }
      if start > lastKey || end < firstKey {
        RangeSkip(es, g.leafLen, cs, start, start, end + 1, results0, found0, results, found);
        CacheIdle(es, g.leafLen, cs, found0, start, start, end + 1);
        return;
      }
      var last := if end > lastKey then lastKey else end;
      var key := start;
      while key <= last
        invariant Valid() && start <= key <= last + 1
        invariant Ranged(es, g.leafLen, cs, start, key, results0, found0, results, found)
        invariant cachedLeaf.entries == CacheAt(es, g.leafLen, MAX_LEAF_NODE_CACHED, cs, found0, start, key)
        decreases last + 1 - key
      {
        if key < firstKey {
          RangeSkip(es, g.leafLen, cs, start, key, firstKey, results0, found0, results, found);
          CacheIdle(es, g.leafLen, cs, found0, start, key, firstKey);
          key := firstKey;
        }
        RangeKey(es, g.leafLen, cs, start, key, results0, found0, results, found);
        if key in found { key := key + 1; continue; }
        KeysAre(key);
        LookedIs(cachedLeaf.entries, key);
        RecordIs(es, g.leafLen, cs, found0, start, key);
        var record := SearchCachedLeaf(key);
        if record.Some? {
          RangeFound(es, g.leafLen, cs, start, key, results0, found0, results, found, record.value);
          results, found := results[key := record.value], found + {key};
          key := key + 1;
          continue;
        }
        var leaf, i, j := SearchLeaf(key);
        if leaf.Some? {
          CacheLeaf(leaf.value, key, i, j);
          EitherEnd(leaf.value.es, key);
          var m := LastInLeaf(leaf.value.es, key);
          RangeFound(es, g.leafLen, cs, start, key, results0, found0, results, found, m.value);
          results, found := results[key := m.value], found + {key};
        }
        key := key + 1;
      }
      if last < end {
        RangeSkip(es, g.leafLen, cs, start, key, end + 1, results0, found0, results, found);
        CacheIdle(es, g.leafLen, cs, found0, start, key, end + 1);
      }
    }

    lemma {:induction false} NothingOutside()
      requires Valid()
      ensures forall k: nat :: !InKeys(es, k) ==> FirstMatch(es, k).None?
    {
      hide *;
      forall k: nat | !InKeys(es, k) ensures FirstMatch(es, k).None? {
        KeysAre(k);
        OutOfRange(k);
      }
    }

    lemma {:induction false} CacheValid()
      requires FileValid() && cachedLeaf.Valid() && CacheOk(file, root, cachedLeaf.root)
      requires cachedLeaf.capacity == MAX_LEAF_NODE_CACHED
      ensures Valid()
    {
    }
  }

  lemma {:induction false} Evicted<V>(c: LruCache<V>)
    requires c.Valid() && |c.entries| == c.capacity
    ensures c.capacity >= 1
  {
  }

  lemma {:induction false} CacheSize<V>(c: LruCache<V>)
    requires c.Valid()
    ensures |c.entries| <= c.capacity
  {
  }

  lemma {:induction false} SameText(s: Store, p: nat)
    ensures p in s && s[p].Leaf? ==> LeafText(s, p) == s[p].es
  {
  }

  // ---------------------------------------------------------------- the iterator

  lemma {:induction false} HeadTail(cs: seq<Child>)
    requires cs != []
    ensures cs == [cs[0]] + cs[1..] && cs[..0] == []
  {
  }

  lemma {:induction false} FirstSound(s: Store, h: nat, cs: seq<Child>)
    requires SoundAll(s, h, cs) && cs != []
    ensures Sound(s, h, cs[0])
  {
  }

  lemma {:induction false} FirstChild(s: Store, h: nat, cs: seq<Child>)
    requires SoundAll(s, h, cs) && cs != [] && Nondecreasing(Text(s, UnderAll(s, h, cs)))
    ensures Text(s, UnderAll(s, h, cs)) != [] && Text(s, Under(s, h, cs[0])) != []
    ensures cs[0].key >= Text(s, UnderAll(s, h, cs))[0].key
    ensures Text(s, Under(s, h, cs[0]))[0] == Text(s, UnderAll(s, h, cs))[0]
    ensures UnderAll(s, h, cs) == Under(s, h, cs[0]) + UnderAll(s, h, cs[1..])
  {
    hide *;
    HeadTail(cs);
    FirstSound(s, h, cs);
    EndsWith(s, h, cs[0]);
    TextSplit(s, h, cs, 0);
    NoText(s, h);
    UnderConcat(s, h, [cs[0]], cs[1..]);
    UnderOne(s, h, cs[0]);
    HeadOf(Text(s, UnderAll(s, h, cs)), Text(s, Under(s, h, cs[0])), Text(s, UnderAll(s, h, cs[1..])));
  }

  lemma {:induction false} HeadOf(t: seq<Entry>, a: seq<Entry>, b: seq<Entry>)
    requires t == [] + a + b && a != [] && Nondecreasing(t)
    ensures t != [] && t[0] == a[0] && a[|a|-1].key >= t[0].key
  {
    assert t == a + b;
    assert t[|a|-1] == a[|a|-1];
  }

  /// Searching the first key picks the first leaf.
  lemma {:induction false} FirstPick(s: Store, root: nat, es: seq<Entry>, i: nat, j: nat)
    requires ThreeLevels(s, root, es) && Picks(s, root, es[0].key, i, j)
    ensures i == 0 && j == 0 && var ps := UnderAll(s, 1, KidsAt(s, root));
      ps != [] && ps[0] == Picked(s, root, i, j).pos
  {
    var cs := KidsAt(s, root);
    RootParts(s, root, es);
    FirstChild(s, 1, cs);
    assert Sound(s, 1, cs[0]);
    InnerParts(s, cs[0]);
    KidText(s, cs, 0);
    var ds := KidsAt(s, cs[0].pos);
    FirstChild(s, 0, ds);
    assert Under(s, 0, ds[0]) == [ds[0].pos];
    hide Sound, SoundAll, Text, UnderAll, ThreeLevels, Nondecreasing, Under;
    Skipped(cs, es[0].key, i, 0);
    Skipped(KidsAt(s, cs[i].pos), es[0].key, j, 0);
  }

  class BitIterator {
    const bitFile: BitFile
    var curRecord: nat
    var count: nat
    var hasNext: bool
    var leaf: Node
    /// Index of the current leaf in the chain.
    ghost var at: nat

    ghost predicate Valid()
      reads this, bitFile
    {
      && bitFile.FileValid() && hasNext == (count < |bitFile.es|)
      && (hasNext ==> At(bitFile.g.leafLen, bitFile.file, bitFile.chain, leaf, at, curRecord, count))
    }

    /// bit_iterator_init.
    constructor (f: BitFile)
      requires f.Valid()
      ensures Valid() && bitFile == f && count == 0
    {
      hide *;
      bitFile, curRecord, count, hasNext, at := f, 0, 0, true, 0;
      f.SearchParts();
      var first, i, j := f.SearchLeaf(f.firstKey);
      FirstMatchAt(f.es, f.firstKey, 0);
      FirstPick(f.file, f.root, f.es, i, j);
      leaf := first.value;
      new;
      Started();
    }

    lemma {:induction false} Started()
      requires bitFile.FileValid() && bitFile.es != [] && curRecord == count == at == 0 && hasNext
      requires UnderAll(bitFile.file, 1, KidsAt(bitFile.file, bitFile.root)) != []
      requires UnderAll(bitFile.file, 1, KidsAt(bitFile.file, bitFile.root))[0] in bitFile.file
      requires leaf == bitFile.file[UnderAll(bitFile.file, 1, KidsAt(bitFile.file, bitFile.root))[0]]
      ensures Valid()
    {
      hide ThreeLevels, Linked, UnderAll, KidsAt;
    }

    /// bit_iterator_next.
    method Next() returns (e: Option<Entry>)
      requires Valid()
      modifies this
      ensures Valid()
      ensures e == if old(count) < |bitFile.es| then Some(bitFile.es[old(count)]) else None
      ensures count == old(count) + if e.Some? then 1 else 0
    {
      hide *;
      IterParts();
      if !hasNext { return None; }
      AtEntry(bitFile.g.leafLen, bitFile.file, bitFile.chain, bitFile.es, leaf, at, curRecord, count);
      e := Some(leaf.es[curRecord]);
      count := count + 1;
      if count >= bitFile.nrRecord {
        hasNext := false;
        IterValid();
        return;
      }
      curRecord := curRecord + 1;
      if curRecord == bitFile.g.leafLen {
        var pos := leaf.next;
        leaf := bitFile.file[pos];
        at := at + 1;
        curRecord := 0;
      }
      IterValid();
    }

    lemma {:induction false} IterParts()
      requires Valid()
      ensures bitFile.FileValid() && hasNext == (count < |bitFile.es|) && bitFile.nrRecord == |bitFile.es|
      ensures bitFile.g.leafLen >= 1 && Linked(bitFile.g.leafLen, bitFile.file, bitFile.chain, bitFile.es)
      ensures hasNext ==> At(bitFile.g.leafLen, bitFile.file, bitFile.chain, leaf, at, curRecord, count) && curRecord < bitFile.g.leafLen
    {
    }

    lemma {:induction false} IterValid()
      requires bitFile.FileValid() && hasNext == (count < |bitFile.es|)
      requires hasNext ==> At(bitFile.g.leafLen, bitFile.file, bitFile.chain, leaf, at, curRecord, count)
      ensures Valid()
    {
    }
  }

  /// The iterator stands at entry `count`, which is entry `rec` of leaf `at`.
  ghost predicate At(l: nat, s: Store, chain: seq<nat>, leaf: Node, at: nat, rec: nat, count: nat) {
    && at < |chain| && chain[at] in s && leaf == s[chain[at]]
    && count == l * at + rec && rec < l
  }

  /// The entry the iterator stands at, and where it goes from there.
  lemma {:induction false} AtEntry(l: nat, s: Store, chain: seq<nat>, es: seq<Entry>, leaf: Node, at: nat, rec: nat, count: nat)
    requires l >= 1 && Linked(l, s, chain, es) && At(l, s, chain, leaf, at, rec, count) && count < |es|
    ensures leaf.Leaf? && rec < |leaf.es| && leaf.es[rec] == es[count]
    ensures count + 1 < |es| && rec + 1 < l ==> At(l, s, chain, leaf, at, rec + 1, count + 1)
    ensures count + 1 < |es| && rec + 1 == l ==>
      leaf.next in s && At(l, s, chain, s[leaf.next], at + 1, 0, count + 1)
  {
    assert |es| <= l * |chain|;
    LeafAt(l, s, chain, es, at);
    hide Linked, Piece;
    NextPiece(l, at);
    PieceEntry(l, es, at, rec);
    if count + 1 < |es| && rec + 1 == l {
      ScaleIf(l, |chain|, at + 1);
      LeafAt(l, s, chain, es, at + 1);
    }
  }

  lemma {:induction false} LeafAt(l: nat, s: Store, chain: seq<nat>, es: seq<Entry>, i: nat)
    requires Linked(l, s, chain, es) && i < |chain| && l * i < |es| && l >= 1
    ensures chain[i] in s && s[chain[i]].Leaf? && s[chain[i]].es == Piece(l, es, i)
    ensures i + 1 < |chain| ==> s[chain[i]].next == chain[i+1]
  {
    PieceEntry(l, es, i, 0);
    assert LeafText(s, chain[i]) == Piece(l, es, i);
  }

  lemma {:induction false} PieceEntry(l: nat, es: seq<Entry>, i: nat, r: nat)
    requires l * i + r < |es| && r < l
    ensures r < |Piece(l, es, i)| && Piece(l, es, i)[r] == es[l * i + r]
  {
    NextPiece(l, i);
  }

  /// Iterating over a file gives back its entries in order.
  method ReadAll(f: BitFile) returns (out: seq<Entry>)
    requires f.Valid()
    ensures out == f.es
  {
    hide *;
    out := [];
    var it := new BitIterator(f);
    Progress(it);
    while it.hasNext
      invariant it.Valid() && it.bitFile == f && it.count <= |f.es| && out == f.es[..it.count]
      invariant it.hasNext == (it.count < |f.es|)
      decreases |f.es| - it.count
    {
      var e := it.Next();
      out := out + [e.value];
      Progress(it);
    }
  }

  lemma {:induction false} Progress(it: BitIterator)
    requires it.Valid()
    ensures it.hasNext == (it.count < |it.bitFile.es|)
  {
  }

  /// Bulk loading any non-empty sequence of entries with non-decreasing keys, up to the capacity.
  method Build(g: Geometry, es: seq<Entry>, begin: nat) returns (f: BitFile)
    requires g.Valid() && g.height == 3 && 1 <= |es| <= g.capacity && Nondecreasing(es)
    ensures fresh(f) && f.Valid() && f.es == es
  {
    hide *;
    var b := new BitBuilder(g, begin);
    for i := 0 to |es|
      invariant b.Valid() && b.added == es[..i] && b.size == i && b.g == g && b.start == begin
    {
      b.AddEntry(es[i]);
    }
    assert es[..|es|] == es;
    var root, first, last, nr := b.Complete();
    f := new BitFile(g, b.file, root, first, last, nr, es, b.chain, begin);
  }
}
