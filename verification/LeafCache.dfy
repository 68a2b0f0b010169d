/** The leaf cache of an index file, and what a lookup of a key answers with it.

A file is cut into leaves of `l` entries; the leaf that answers for a key is the first one whose last key
is not below it, and that last key names the leaf in the cache.  A cached leaf gives the first record of
the key; a leaf that was just read is scanned to its end, so the last one counts (lsm_tree.c:581-604,
677-741; cache.c:34-99). */
module LeafCache {
  import opened Common
  import opened Index
  import opened Tables
  import opened Level
  import opened BitTree
  import opened LruCache

  /// BIT_LEAF_LEN (lsm_tree.h:40).
  const LEAF_LEN: nat := 128

  /// MAX_LEAF_NODE_CACHED (cache.h:10).
  const MAX_LEAF_NODE_CACHED: nat := 128

  // ---------------------------------------------------------------- which leaf

  /// The first entry whose key is not below `k`, or the number of entries.
  function FirstAt(es: seq<Entry>, k: nat): (n: nat)
    ensures n <= |es| && (forall m :: 0 <= m < n ==> es[m].key < k) && (n < |es| ==> k <= es[n].key)
  {
    if es == [] || k <= es[0].key then 0
    else
      var n := FirstAt(es[1..], k);
      assert forall m :: 0 < m < n + 1 ==> es[m] == es[1..][m-1];
      n + 1
  }

  predicate InKeys(es: seq<Entry>, k: nat) {
    es != [] && es[0].key <= k <= es[|es|-1].key
  }

  /// The leaf that answers for a key.
  function LeafOf(es: seq<Entry>, l: nat, k: nat): seq<Entry>
    requires l >= 1
  {
    Piece(l, es, FirstAt(es, k) / l)
  }

  /// Its name in the cache.
  function LeafKey(es: seq<Entry>, l: nat, k: nat): nat
    requires l >= 1
  {
    var t := LeafOf(es, l, k);
    if t == [] then 0 else t[|t|-1].key
  }

  /// The key has two records and both are in one leaf.
  predicate OneLeaf(es: seq<Entry>, l: nat, k: nat)
    requires l >= 1
  {
    var n := FirstAt(es, k);
    n + 1 < |es| && es[n].key == k && es[n+1].key == k && n / l == (n + 1) / l
  }

  // ---------------------------------------------------------------- one lookup

  /// What one lookup does to the cache: a cached leaf is used; a leaf that is read is kept only when it
  /// has the key.
  function Ask(es: seq<Entry>, l: nat, cap: nat, cs: seq<nat>, k: nat): seq<nat>
    requires l >= 1
  {
    if InKeys(es, k) && (LeafKey(es, l, k) in cs || FirstMatch(es, k).Some?) then Used(cs, LeafKey(es, l, k), cap) else cs
  }

  /// What a range search takes for the key.
  function Taken(es: seq<Entry>, l: nat, cs: seq<nat>, k: nat): Option<Record>
    requires l >= 1
  {
    if !InKeys(es, k) then None
    else if LeafKey(es, l, k) in cs then FirstMatch(es, k)
    else LastMatch(LeafOf(es, l, k), k)
  }

  /// The cache when a range search that began at `from` reaches `k`; keys found before are not looked up.
  function CacheAt(es: seq<Entry>, l: nat, cap: nat, cs: seq<nat>, found: set<nat>, from: nat, k: nat): seq<nat>
    requires l >= 1
    decreases k
  {
    if k <= from then cs
    else
      var c := CacheAt(es, l, cap, cs, found, from, k - 1);
      if k - 1 in found then c else Ask(es, l, cap, c, k - 1)
  }

  /// The range search sees the first record of the key: its leaf is cached, or holds one record of it only.
  predicate SeesFirst(es: seq<Entry>, l: nat, cs: seq<nat>, k: nat)
    requires l >= 1
  {
    LeafKey(es, l, k) in cs || !OneLeaf(es, l, k)
  }

  // ---------------------------------------------------------------- what the leaf gives

  lemma {:induction false} LeafBounds(l: nat, n: nat)
    requires l >= 1
    ensures l * (n / l) <= n < l * (n / l) + l
  {
  }

  lemma {:induction false} Quotient(l: nat, n: nat, m: nat)
    requires l >= 1 && l * m <= n < l * m + l
    ensures n / l == m
  {
    var q := n / l;
    LeafBounds(l, n);
    assert q < m ==> l * (q + 1) <= l * m;
    assert q > m ==> l * (m + 1) <= l * q;
  }

  /// A leaf is the stretch of `l` entries from a multiple of `l` on, cut at the end of the file.
  lemma {:induction false} PieceIs(l: nat, es: seq<Entry>, m: nat)
    requires l * m <= |es|
    ensures Piece(l, es, m) == es[l * m..if l * m + l < |es| then l * m + l else |es|]
  {
    NextPiece(l, m);
  }

  lemma {:induction false} KeyAt(es: seq<Entry>, k: nat, m: nat)
    requires Nondecreasing(es) && m < |es|
    ensures m < FirstAt(es, k) <==> es[m].key < k
  {
  }

  lemma {:induction false} NotPast(es: seq<Entry>, k: nat)
    requires Nondecreasing(es) && InKeys(es, k)
    ensures FirstAt(es, k) < |es| && es[FirstAt(es, k)].key >= k
  {
    KeyAt(es, k, |es| - 1);
    hide FirstAt;
  }

  /// The leaf has the first place whose key is not below `k`, and ends where its name says.
  lemma {:induction false} LeafHas(es: seq<Entry>, l: nat, k: nat) returns (a: nat, b: nat)
    requires l >= 1 && Nondecreasing(es) && InKeys(es, k)
    ensures var n := FirstAt(es, k);
      && a <= n < b <= |es| && LeafOf(es, l, k) == es[a..b] && LeafKey(es, l, k) == es[b-1].key && k <= es[b-1].key
      && (n + 1 < |es| ==> (n / l == (n + 1) / l <==> n + 1 < b))
      && a == l * (n / l) && b <= a + l
  {
    hide *;
    var n := FirstAt(es, k);
    NotPast(es, k);
    LeafBounds(l, n);
    a, b := LeafStretch(es, l, n);
    LeafNamed(es, l, k, a, b);
    SortedAt(es, n, b - 1);
  }

  lemma {:induction false} SortedAt(es: seq<Entry>, i: nat, j: nat)
    requires Nondecreasing(es) && i <= j < |es|
    ensures es[i].key <= es[j].key
  {
  }

  lemma {:induction false} LeafNamed(es: seq<Entry>, l: nat, k: nat, a: nat, b: nat)
    requires l >= 1 && a < b <= |es| && Piece(l, es, FirstAt(es, k) / l) == es[a..b]
    ensures LeafOf(es, l, k) == es[a..b] && LeafKey(es, l, k) == es[b-1].key
  {
  }

  lemma {:induction false} LeafStretch(es: seq<Entry>, l: nat, n: nat) returns (a: nat, b: nat)
    requires l >= 1 && n < |es|
    ensures a <= n < b <= |es| && Piece(l, es, n / l) == es[a..b] && a == l * (n / l) && b <= a + l
    ensures n + 1 < |es| ==> (n / l == (n + 1) / l <==> n + 1 < b)
  {
    hide *;
    var q := n / l;
    LeafBounds(l, n);
    PieceIs(l, es, q);
    a := l * q;
    b := if a + l < |es| then a + l else |es|;
    if n + 1 < |es| {
      LeafBounds(l, n + 1);
      if n + 1 < a + l { Quotient(l, n + 1, q); }
    }
  }

  /// Which leaf it is does not depend on how it is found: a leaf that ends at or above the key and
  /// begins behind entries below it.
  lemma {:induction false} LeafIs(es: seq<Entry>, l: nat, k: nat, m: nat)
    requires l >= 1 && Nondecreasing(es) && l * m < |es| && Piece(l, es, m) != []
    requires k <= Piece(l, es, m)[|Piece(l, es, m)|-1].key
    requires l * m > 0 ==> es[l * m - 1].key < k
    ensures FirstAt(es, k) / l == m && LeafOf(es, l, k) == Piece(l, es, m)
  {
    hide *;
    var n, a := FirstAt(es, k), l * m;
    PieceIs(l, es, m);
    var b := if a + l < |es| then a + l else |es|;
    assert es[a..b][b - a - 1] == es[b-1];
    KeyAt(es, k, b - 1);
    if a > 0 { KeyAt(es, k, a - 1); }
    Quotient(l, n, m);
    LeafOfIs(es, l, k);
  }

  lemma {:induction false} LeafOfIs(es: seq<Entry>, l: nat, k: nat)
    requires l >= 1
    ensures LeafOf(es, l, k) == Piece(l, es, FirstAt(es, k) / l)
  {
  }

  /// Where a key's records are in a well-shaped file: from its first place on, one or two of them.
  lemma {:induction false} Places(es: seq<Entry>, k: nat)
    requires Shape(es)
    ensures var n, c := FirstAt(es, k), TableFrom(es);
      && (k in c <==> n < |es| && es[n].key == k)
      && (k in c && c[k].val.Some? && c[k].neg <==> n + 1 < |es| && es[n].key == k && es[n+1].key == k)
      && (forall m :: 0 <= m < |es| && es[m].key == k ==> m == n || m == n + 1)
  {
    var n := FirstAt(es, k);
    TableKeys(es, k);
    LastIsFirst(es, k);
    FirstIsTable(es, k);
    hide FirstAt, TableFrom;
    if n < |es| && es[n].key == k {
      FirstMatchAt(es, k, n);
      if n + 1 < |es| && es[n+1].key == k {
        LastMatchAt(es, k, n + 1);
      } else {
        LastMatchAt(es, k, n);
      }
    }
    hide FirstMatch, LastMatch;
  }

  /// The record a range search takes for a key of a table: the first one, or the last.
  function CellSeen(c: Cell, first: bool): Record {
    if first then First(c) else LastRecord(c)
  }

  /// The last record in the leaf: the second one if the leaf has both, else the first of the file.
  lemma {:induction false} LastInLeafIs(es: seq<Entry>, l: nat, k: nat)
    requires l >= 1 && es != [] && Shape(es) && InKeys(es, k)
    ensures FirstMatch(es, k).None? ==> LastMatch(LeafOf(es, l, k), k).None?
    ensures FirstMatch(es, k).Some? ==>
      LastMatch(LeafOf(es, l, k), k) == if OneLeaf(es, l, k) then LastMatch(es, k) else FirstMatch(es, k)
  {
    ShapeSorted(es);
    var a, b := LeafHas(es, l, k);
    Places(es, k);
    OneLeafIs(es, l, k, b);
    hide *;
    StretchMatch(es, FirstAt(es, k), a, b, k);
  }

  lemma {:induction false} ShapeSorted(es: seq<Entry>)
    requires Shape(es)
    ensures Nondecreasing(es)
  {
  }

  /// A stretch of the entries that has the key's first one.
  lemma {:induction false} StretchMatch(es: seq<Entry>, n: nat, a: nat, b: nat, k: nat)
    requires a <= n < b <= |es| && (forall m :: 0 <= m < n ==> es[m].key < k)
    requires forall m :: 0 <= m < |es| && es[m].key == k ==> m == n || m == n + 1
    requires n + 1 < |es| && es[n+1].key == k ==> es[n].key == k
    ensures FirstMatch(es, k).None? ==> LastMatch(es[a..b], k).None?
    ensures FirstMatch(es, k).Some? ==>
      LastMatch(es[a..b], k) == if n + 1 < b && es[n+1].key == k then LastMatch(es, k) else FirstMatch(es, k)
  {
    hide *;
    var t := es[a..b];
    assert forall i :: 0 <= i < |t| ==> t[i] == es[a + i];
    FirstMatchNone(es, k);
    LastMatchNone(t, k);
    if es[n].key == k {
      FirstMatchAt(es, k, n);
      if n + 1 < b && es[n+1].key == k {
        LastMatchAt(es, k, n + 1);
        LastMatchAt(t, k, n + 1 - a);
      } else {
        LastMatchAt(t, k, n - a);
      }
    }
  }

  lemma {:induction false} OneLeafIs(es: seq<Entry>, l: nat, k: nat, b: nat)
    requires l >= 1 && b <= |es|
    requires var n := FirstAt(es, k); n + 1 < |es| ==> (n / l == (n + 1) / l <==> n + 1 < b)
    ensures var n := FirstAt(es, k); OneLeaf(es, l, k) <==> n + 1 < b && es[n].key == k && es[n+1].key == k
  {
    hide FirstAt;
  }

  /// What a lookup takes from a well-shaped file, as its table has it.
  lemma {:induction false} TakenIs(es: seq<Entry>, l: nat, cs: seq<nat>, k: nat)
    requires l >= 1 && es != [] && Shape(es)
    ensures Taken(es, l, cs, k) ==
      if k in TableFrom(es) then Some(CellSeen(TableFrom(es)[k], SeesFirst(es, l, cs, k))) else None
  {
    FirstIsTable(es, k);
    LastIsFirst(es, k);
    TableKeys(es, k);
    if InKeys(es, k) { LastInLeafIs(es, l, k); }
    hide FirstMatch, LastMatch, LeafOf, OneLeaf, TableFrom;
  }

  // ---------------------------------------------------------------- the caches of all files

  /// The recency lists of the open files, by file id.
  type Caches = map<nat, seq<nat>>

  function CacheOf(cs: Caches, id: nat): seq<nat> {
    if id in cs then cs[id] else []
  }

  /// A lookup of `k` in a file.
  function AskFile(cs: Caches, f: File, k: nat): Caches {
    cs[f.id := Ask(f.es, LEAF_LEN, MAX_LEAF_NODE_CACHED, CacheOf(cs, f.id), k)]
  }

  /// The file's cache when a range search that began at `from` reaches `k`.
  function FileCacheAt(f: File, cs: seq<nat>, found: set<nat>, from: nat, k: nat): seq<nat> {
    CacheAt(f.es, LEAF_LEN, MAX_LEAF_NODE_CACHED, cs, found, from, k)
  }

  /// For which keys that range search sees the first record.
  function FirstOf(f: File, cs: seq<nat>, found: set<nat>, from: nat): nat -> bool {
    (k: nat) => SeesFirst(f.es, LEAF_LEN, FileCacheAt(f, cs, found, from, k), k)
  }

  lemma {:induction false} FirstOfIs(f: File, cs: seq<nat>, found: set<nat>, from: nat, k: nat)
    ensures FirstOf(f, cs, found, from)(k) == SeesFirst(f.es, LEAF_LEN, FileCacheAt(f, cs, found, from, k), k)
  {
  }

  /// Keys outside the file's range leave the cache alone.
  lemma {:induction false} CacheSkip(f: File, cs: seq<nat>, found: set<nat>, from: nat, k: nat, k': nat)
    requires FileOk(f) && from <= k <= k'
    requires k' <= f.first || f.last < k
    ensures FileCacheAt(f, cs, found, from, k') == FileCacheAt(f, cs, found, from, k)
    decreases k' - k
  {
    if k < k' {
      CacheSkip(f, cs, found, from, k, k' - 1);
      assert !InKeys(f.es, k' - 1);
      hide Used, LeafKey, FirstMatch, Shape;
    }
  }

  lemma {:induction false} CacheStep(f: File, cs: seq<nat>, found: set<nat>, from: nat, k: nat)
    requires from <= k
    ensures FileCacheAt(f, cs, found, from, from) == cs
    ensures var c := FileCacheAt(f, cs, found, from, k);
      FileCacheAt(f, cs, found, from, k + 1) == if k in found then c else Ask(f.es, LEAF_LEN, MAX_LEAF_NODE_CACHED, c, k)
  {
    hide Ask;
  }

  /// Only the found keys in the file's range matter.
  lemma {:induction false} CacheSame(f: File, cs: seq<nat>, found: set<nat>, found': set<nat>, from: nat, k: nat)
    requires FileOk(f) && forall j :: f.first <= j <= f.last ==> (j in found <==> j in found')
    ensures FileCacheAt(f, cs, found, from, k) == FileCacheAt(f, cs, found', from, k)
    decreases k
  {
    if k > from {
      CacheSame(f, cs, found, found', from, k - 1);
      hide Used, LeafKey, FirstMatch, Shape;
    }
  }

  // ---------------------------------------------------------------- when a leaf is cached

  lemma {:induction false} DropLength(ks: seq<nat>, k: nat)
    ensures |Drop(ks, k)| <= |ks| - if k in ks then 1 else 0
  {
    if ks != [] {
      var n := |ks| - 1;
      assert ks == ks[..n] + [ks[n]];
      DropLength(ks[..n], k);
    }
  }

  /// A use puts the leaf in front, adds no other, and evicts none while there is room.
  lemma {:induction false} UsedHas(cs: seq<nat>, k: nat, cap: nat, x: nat)
    requires cap >= 1
    ensures k in Used(cs, k, cap) && |Used(cs, k, cap)| <= |cs| + 1
    ensures x in Used(cs, k, cap) ==> x == k || x in cs
    ensures |cs| + 1 <= cap && x in cs ==> x in Used(cs, k, cap)
  {
    DropLength(cs, k);
    DropMember(cs, k, x);
    assert Used(cs, k, cap)[0] == k;
  }

  lemma {:induction false} AskHas(es: seq<Entry>, l: nat, cap: nat, cs: seq<nat>, k: nat, x: nat)
    requires l >= 1 && cap >= 1
    ensures |Ask(es, l, cap, cs, k)| <= |cs| + 1
    ensures x in Ask(es, l, cap, cs, k) ==> x in cs || (x == LeafKey(es, l, k) && InKeys(es, k) && FirstMatch(es, k).Some?)
    ensures |cs| + 1 <= cap && x in cs ==> x in Ask(es, l, cap, cs, k)
    ensures x == LeafKey(es, l, k) && x in cs ==> x in Ask(es, l, cap, cs, k)
    ensures x == LeafKey(es, l, k) && InKeys(es, k) && FirstMatch(es, k).Some? ==> x in Ask(es, l, cap, cs, k)
  {
    UsedHas(cs, LeafKey(es, l, k), cap, x);
    hide Used, LeafKey, FirstMatch;
  }

  /// Keys up to the end of a leaf have that leaf.
  lemma {:induction false} SameLeafKey(es: seq<Entry>, l: nat, j: nat, i: nat)
    requires l >= 1 && Nondecreasing(es) && InKeys(es, j) && j <= i <= LeafKey(es, l, j)
    ensures InKeys(es, i) && LeafKey(es, l, i) == LeafKey(es, l, j)
  {
    hide *;
    var a, b := LeafHas(es, l, j);
    WithinKeys(es, j, i, b);
    NotPast(es, i);
    KeyAt(es, i, b - 1);
    FirstAtGrows(es, j, i);
    LeafAgain(es, l, j, i, a, b);
  }

  lemma {:induction false} WithinKeys(es: seq<Entry>, j: nat, i: nat, b: nat)
    requires Nondecreasing(es) && InKeys(es, j) && 0 < b <= |es| && j <= i <= es[b-1].key
    ensures InKeys(es, i)
  {
  }

  lemma {:induction false} FirstAtGrows(es: seq<Entry>, j: nat, i: nat)
    requires Nondecreasing(es) && j <= i && InKeys(es, i)
    ensures FirstAt(es, j) <= FirstAt(es, i)
  {
    NotPast(es, i);
    KeyAt(es, j, FirstAt(es, i));
    if FirstAt(es, i) < FirstAt(es, j) { KeyAt(es, i, FirstAt(es, i)); }
    hide FirstAt;
  }

  /// The first place of `i` lies in the leaf of `j`.
  lemma {:induction false} LeafAgain(es: seq<Entry>, l: nat, j: nat, i: nat, a: nat, b: nat)
    requires l >= 1 && a <= FirstAt(es, j) <= FirstAt(es, i) < b <= a + l && a == l * (FirstAt(es, j) / l)
    ensures LeafKey(es, l, i) == LeafKey(es, l, j)
  {
    hide *;
    Quotient(l, FirstAt(es, i), FirstAt(es, j) / l);
    SamePiece(es, l, i, j);
  }

  lemma {:induction false} SamePiece(es: seq<Entry>, l: nat, i: nat, j: nat)
    requires l >= 1 && FirstAt(es, i) / l == FirstAt(es, j) / l
    ensures LeafKey(es, l, i) == LeafKey(es, l, j)
  {
    hide FirstAt, Piece;
  }

  /// An earlier key of the search that the file has and that is in the same leaf.
  ghost predicate AskedInLeaf(es: seq<Entry>, l: nat, found: set<nat>, from: nat, k: nat, x: nat)
    requires l >= 1
  {
    exists j :: from <= j < k && j !in found && InKeys(es, j) && FirstMatch(es, j).Some? && LeafKey(es, l, j) == x
  }

  lemma {:induction false} CacheNext(es: seq<Entry>, l: nat, cap: nat, cs: seq<nat>, found: set<nat>, from: nat, k: nat)
    requires l >= 1
    ensures CacheAt(es, l, cap, cs, found, from, k) ==
      if k <= from then cs
      else var c := CacheAt(es, l, cap, cs, found, from, k - 1); if k - 1 in found then c else Ask(es, l, cap, c, k - 1)
  {
    hide Ask;
  }

  lemma {:induction false} AskedLater(es: seq<Entry>, l: nat, found: set<nat>, from: nat, k: nat, x: nat)
    requires l >= 1
    ensures AskedInLeaf(es, l, found, from, k, x) ==> AskedInLeaf(es, l, found, from, k + 1, x)
    ensures from <= k && k !in found && InKeys(es, k) && FirstMatch(es, k).Some? && LeafKey(es, l, k) == x ==>
      AskedInLeaf(es, l, found, from, k + 1, x)
  {
    hide LeafKey, FirstMatch, InKeys;
  }

  /// A leaf comes into the cache only by a lookup of a key that it has.
  lemma {:induction false} OnlyAsked(es: seq<Entry>, l: nat, cap: nat, cs: seq<nat>, found: set<nat>, from: nat, k: nat, x: nat)
    requires l >= 1 && cap >= 1
    ensures x in CacheAt(es, l, cap, cs, found, from, k) ==> x in cs || AskedInLeaf(es, l, found, from, k, x)
    decreases k
  {
    hide *;
    CacheNext(es, l, cap, cs, found, from, k);
    if k > from {
      OnlyAsked(es, l, cap, cs, found, from, k - 1, x);
      AskHas(es, l, cap, CacheAt(es, l, cap, cs, found, from, k - 1), k - 1, x);
      AskedLater(es, l, found, from, k - 1, x);
    }
  }

  lemma {:induction false} CacheGrowth(es: seq<Entry>, l: nat, cap: nat, cs: seq<nat>, found: set<nat>, from: nat, k: nat)
    requires l >= 1 && cap >= 1 && from <= k
    ensures |CacheAt(es, l, cap, cs, found, from, k)| <= |cs| + (k - from)
    decreases k
  {
    hide *;
    CacheNext(es, l, cap, cs, found, from, k);
    if k > from {
      CacheGrowth(es, l, cap, cs, found, from, k - 1);
      AskHas(es, l, cap, CacheAt(es, l, cap, cs, found, from, k - 1), k - 1, 0);
    }
  }

  /// While there is room for every key of the search, no leaf leaves the cache.
  lemma {:induction false} NoneEvicted(es: seq<Entry>, l: nat, cap: nat, cs: seq<nat>, found: set<nat>, from: nat, k: nat, x: nat)
    requires l >= 1 && cap >= 1 && from <= k && |cs| + (k - from) <= cap && x in cs
    ensures x in CacheAt(es, l, cap, cs, found, from, k)
    decreases k
  {
    hide *;
    CacheNext(es, l, cap, cs, found, from, k);
    if k > from {
      NoneEvicted(es, l, cap, cs, found, from, k - 1, x);
      CacheGrowth(es, l, cap, cs, found, from, k - 1);
      AskHas(es, l, cap, CacheAt(es, l, cap, cs, found, from, k - 1), k - 1, x);
    }
  }

  /// A leaf that was looked up stays cached until the search has passed its last key.
  lemma {:induction false} StaysCached(es: seq<Entry>, l: nat, cap: nat, cs: seq<nat>, found: set<nat>, from: nat, j: nat, k: nat)
    requires l >= 1 && cap >= 1 && Nondecreasing(es) && from <= j < k <= LeafKey(es, l, j)
    requires j !in found && InKeys(es, j) && FirstMatch(es, j).Some?
    ensures LeafKey(es, l, j) in CacheAt(es, l, cap, cs, found, from, k)
    decreases k
  {
    hide *;
    var x, c := LeafKey(es, l, j), CacheAt(es, l, cap, cs, found, from, k - 1);
    CacheNext(es, l, cap, cs, found, from, k);
    AskHas(es, l, cap, c, k - 1, x);
    if j < k - 1 {
      StaysCached(es, l, cap, cs, found, from, j, k - 1);
      SameLeafKey(es, l, j, k - 1);
    }
  }

  lemma {:induction false} AskedStays(es: seq<Entry>, l: nat, cap: nat, cs: seq<nat>, found: set<nat>, from: nat, k: nat)
    requires l >= 1 && cap >= 1 && Nondecreasing(es) && InKeys(es, k) && AskedInLeaf(es, l, found, from, k, LeafKey(es, l, k))
    ensures LeafKey(es, l, k) in CacheAt(es, l, cap, cs, found, from, k)
  {
    hide LeafKey, FirstMatch, InKeys, CacheAt, Nondecreasing;
    var j :| from <= j < k && j !in found && InKeys(es, j) && FirstMatch(es, j).Some? && LeafKey(es, l, j) == LeafKey(es, l, k);
    var a, b := LeafHas(es, l, k);
    StaysCached(es, l, cap, cs, found, from, j, k);
  }

  /// When a leaf is cached as the search reaches a key of it: if an earlier key of the search was found in
  /// it; or if it was cached before and has not been evicted, which cannot happen while the cache has room
  /// for the keys of the search.
  lemma {:induction false} CachedWhen(es: seq<Entry>, l: nat, cap: nat, cs: seq<nat>, found: set<nat>, from: nat, k: nat)
    requires l >= 1 && cap >= 1 && Nondecreasing(es) && from <= k && InKeys(es, k)
    ensures var x := LeafKey(es, l, k); var cached := x in CacheAt(es, l, cap, cs, found, from, k);
      && (AskedInLeaf(es, l, found, from, k, x) ==> cached)
      && (cached ==> x in cs || AskedInLeaf(es, l, found, from, k, x))
      && (|cs| + (k - from) <= cap ==> (cached <==> x in cs || AskedInLeaf(es, l, found, from, k, x)))
  {
    hide *;
    var x := LeafKey(es, l, k);
    OnlyAsked(es, l, cap, cs, found, from, k, x);
    if AskedInLeaf(es, l, found, from, k, x) { AskedStays(es, l, cap, cs, found, from, k); }
    if |cs| + (k - from) <= cap && x in cs { NoneEvicted(es, l, cap, cs, found, from, k, x); }
  }
}
