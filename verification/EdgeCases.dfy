/** Inputs on which the index does not do what it is for, and exactly when that happens. */
module EdgeCases {
  import opened Common
  import opened Index
  import opened Level
  import opened Merge
  import opened Compaction
  import opened CompactionJob
  import opened MajorCompaction
  import opened Tables
  import opened LeafCache
  import opened LsmTree
  import opened Engine
  import opened RangeSearch

  // ---------------------------------------------------------------- a heap tie in the merge

  /// The loop's memory when an older file shows a value and its negative before the newer file's first
  /// record of the same key, which a heap that lets a pushed entry overtake an equal root would allow.
  function OlderFirst(files: seq<File>, it: nat, k: nat, v: Record): Group
    requires it < |files|
  {
    Absorb(files, Group(Node(it, 0, Entry(k, v)), None, None), Node(it, 1, Entry(k, TOMBSTONE)))
  }

  /// Then the newer file's records of the key.
  function ThenNewer(files: seq<File>, g: Group, k: nat, c: Cell): Group
    requires |files| >= 1 && g.distinct.it < |files|
  {
    var g1 := if c.val.Some? then Absorb(files, g, Node(0, 0, Entry(k, c.val.value))) else g;
    if c.neg then Absorb(files, g1, Node(0, if c.val.Some? then 1 else 0, Entry(k, TOMBSTONE))) else g1
  }

  /// In that order the key comes out right exactly when the newer file has a value for it: a lone
  /// negative in the newer file brings the old value back.
  lemma {:induction false} TieBringsBack(files: seq<File>, it: nat, k: nat, v: Record, c: Cell)
    requires FilesOk(files) && 0 < it < |files| && !Negative(v) && CellOk(c)
    ensures var out := Emitted(ThenNewer(files, OlderFirst(files, it, k, v), k, c));
      && (out == (if c.val.Some? then [Entry(k, c.val.value)] else []) <==> c.val.Some?)
      && (c.val.None? ==> out == [Entry(k, v)])
  {
    assert files[it].version < files[0].version && files[0].id != files[it].id;
    hide FilesOk;
  }

  // ---------------------------------------------------------------- a merge that keeps nothing

  /// A level-0 file that deletes the only record of the run leaves the builder without an entry.
  lemma {:induction false} EverythingDeleted(k: nat, v: Record, cap: nat)
    requires cap >= 1
    ensures EndsEmpty(map[k := Cell(None, true)], map[k := Cell(Some(v), false)], cap)
  {
    var f: Table, g: Table := map[k := Cell(None, true)], map[k := Cell(Some(v), false)];
    assert KeptKeys(f, g) == {};
    assert Greatest(f, g, k) && Kept(f, g, k).None?;
  }

  /// A level with a value has a file whose range has its key.
  lemma {:induction false} SomeFile(files: seq<File>, k: nat) returns (i: nat)
    requires AllOk(files) && k in LevelTable(files)
    ensures i < |files| && files[i].first <= k <= files[i].last
  {
    LevelKeys(files, k);
    i :| 0 <= i < |files| && k in Contents(files[i]);
    KeyInRange(files[i], k);
  }

  lemma {:induction false} NoFile(files: seq<File>)
    requires AllOk(files) && LevelTable(files) == map[]
    ensures files == []
  {
    if files != [] {
      SomeKey(files[0]);
      var x :| x in Contents(files[0]);
      LevelCell(files, x, 0);
      assert false;
    }
  }

  /// A lone negative over a run that has at most the value it covers.
  lemma {:induction false} NothingKept(k: nat, g: Table)
    requires forall x :: x in g && x != k ==> g[x].val.None?
    ensures EndsEmpty(map[k := Cell(None, true)], g, 1)
  {
    var f: Table := map[k := Cell(None, true)];
    assert k in f.Keys + g.Keys;
    var x := GreatestExists(f.Keys + g.Keys);
    GreatestIs(f, g, x);
    assert Kept(f, g, x).None?;
  }

  lemma {:induction false} PutOne(l: Layers, k: nat, v: Option<Record>)
    requires l.mem == map[] && l.size == 0 && !l.immPending
    ensures Rotates(l, 1, k, v)
    ensures Put(l, 1, k, v) == Layers(map[], 0, Some(map[k := Cell(v, v.None?)]), true, l.l0, l.l1)
  {
  }

  /// A run of the level has the level's cells.
  lemma {:induction false} RunCell(files: seq<File>, p: nat, q: nat, x: nat)
    requires AllOk(files) && p <= q <= |files| && x in LevelTable(files[p..q])
    ensures x in LevelTable(files) && LevelTable(files)[x] == LevelTable(files[p..q])[x]
  {
    hide *;
    RunDisjoint(files, p, q);
    AllParts(files);
    AllParts(files[p..q]);
    LevelKeys(files[p..q], x);
    var i :| 0 <= i < q - p && x in Contents(files[p..q][i]);
    assert files[p..q][i] == files[p + i];
    LevelCell(files, x, p + i);
    LevelCell(files[p..q], x, i);
  }

  lemma {:induction false} AllParts(files: seq<File>)
    ensures AllOk(files) <==> Disjoint(files) && forall i :: 0 <= i < |files| ==> FileOk(files[i])
  {
  }

  lemma {:induction false} RunValues(files: seq<File>, p: nat, q: nat, k: nat)
    requires AllOk(files) && p <= q <= |files| && forall x :: x != k ==> Val(LevelTable(files), x).None?
    ensures forall x :: x in LevelTable(files[p..q]) && x != k ==> LevelTable(files[p..q])[x].val.None?
  {
    hide AllOk, LevelTable;
    forall x | x in LevelTable(files[p..q]) && x != k ensures LevelTable(files[p..q])[x].val.None? {
      RunCell(files, p, q, x);
      assert Val(LevelTable(files), x).None?;
    }
  }

  /// The third compaction of the history below: level 0 holds a lone negative, level 1 its value.
  lemma {:induction false} ThirdMerge(f0: File, files: seq<File>, k: nat, p: nat, q: nat)
    requires FileOk(f0) && Contents(f0) == map[k := Cell(None, true)] && AllOk(files) && RunOk(files, f0, p, q)
    requires Val(LevelTable(files), k).Some? && forall x :: x != k ==> Val(LevelTable(files), x).None?
    ensures p < q && EndsEmpty(Contents(f0), LevelTable(files[p..q]), 1)
  {
    KeyInRange(f0, k);
    var i := SomeFile(files, k);
    hide Contents, LevelTable, EndsEmpty, FileOk;
    RunValues(files, p, q, k);
    NothingKept(k, LevelTable(files[p..q]));
  }

  /// A tree with a memtable of one record that has nothing to compact.
  ghost predicate Idle(t: LsmTree)
    reads t`memtable, t`immutable, t`pending, t`spec
    reads t.memtable, t.immutable, t.level0, t.level1, t.catalogue, t.catalogue.bits
  {
    && t.Valid() && t.cap == 1 && t.LayersOf().mem == map[] && t.LayersOf().size == 0 && !t.LayersOf().immPending
  }

  lemma {:induction false} IdleIs(t: LsmTree)
    ensures Idle(t) <==>
      t.Valid() && t.cap == 1 && t.LayersOf().mem == map[] && t.LayersOf().size == 0 && !t.LayersOf().immPending
  {
  }

  /// A put, which fills the memtable, and its minor compaction.
  method PutAndCompact(t: LsmTree, k: nat, v: Option<Record>) returns (done: bool, ghost p: nat, ghost q: nat)
    requires Idle(t) && k < MAX_KEY && (v.Some? ==> !Negative(v.value))
    requires t.level0.files != [] ==> |t.level1.files| < t.level1.capacity
    modifies t, t.memtable, t.catalogue, t.catalogue.bits, t.level0, t.level1
    ensures fresh(t.memtable) || t.memtable == old(t.memtable)
    ensures old(t.level0.files) != [] ==> RunOk(old(t.level1.files), old(t.level0.files)[0], p, q)
    ensures p <= q <= |old(t.level1.files)|
    ensures done <==> old(t.level0.files) == [] || p == q ||
                      !EndsEmpty(Contents(old(t.level0.files)[0]), LevelTable(old(t.level1.files)[p..q]), 1)
    ensures |t.level1.files| <= |old(t.level1.files)| + if old(t.level0.files) == [] then 0 else 1
    ensures done ==> Idle(t) && t.LayersOf().l0 == Some(map[k := Cell(v, v.None?)])
    ensures done && old(t.LayersOf()).l0.Some? ==> MergedValues(old(t.LayersOf()).l0.value, old(t.LayersOf()).l1, t.LayersOf().l1)
  {
    hide *;
    IdleIs(t);
    t.Layered();
    ghost var l, top := t.LayersOf(), map[k := Cell(v, v.None?)];
    PutOne(l, k, v);
    var prev := t.Put(k, v);
    t.Layered();
    var att;
    done, att, p, q := t.MinorCompaction();
    if done {
      ghost var l1' := LevelTable(t.level1.files);
      MinorOne(Layers(map[], 0, Some(top), true, l.l0, l.l1), top, l1', att);
      IdleIs(t);
    }
  }

  lemma {:induction false} MinorOne(l: Layers, top: Table, l1': Table, att: seq<Entry>)
    requires l.mem == map[] && l.size == 0 && l.imm == Some(top) && l.immPending && CompactionOk(l, l1', att)
    ensures var m := Minor(l, l1');
      && m.mem == map[] && m.size == 0 && !m.immPending && m.l0 == Some(top)
      && (l.l0.Some? ==> m.l1 == l1' && MergedValues(l.l0.value, l.l1, l1'))
  {
    hide MergedValues, TableOk;
  }

  /// A tree with a memtable of one record: a block is written and removed, and another one follows.  The
  /// second compaction moves the value to level 1; the third merges the lone negative with it, and nothing
  /// is left to complete the file with.
  method NothingLeft(k: nat, v: Record, j: nat, w: Record) returns (done: bool)
    requires k < MAX_KEY && j < MAX_KEY && !Negative(v) && !Negative(w)
    ensures !done
  {
    hide *;
    var t := new LsmTree(1, 2);
    IdleIs(t);
    t.Stock();
    LevelZero(t, k, Cell(Some(v), false));
    NoFile(t.level1.files);
    ghost var p, q;
    done, p, q := PutAndCompact(t, k, Some(v));
    IdleIs(t);
    t.Stock();
    LevelZero(t, k, Cell(Some(v), false));
    done, p, q := PutAndCompact(t, k, None);
    IdleIs(t);
    t.Stock();
    LevelZero(t, k, Cell(None, true));
    OnlyValue(t.level1.files, k, v);
    ghost var f0, s1 := t.level0.files[0], t.level1.files;
    done, p, q := PutAndCompact(t, j, Some(w));
    ThirdMerge(f0, s1, k, p, q);
  }

  /// What the tables say of the files.
  lemma {:induction false} LevelZero(t: LsmTree, k: nat, c: Cell)
    requires t.Valid() && t.LayersOf().l0 == Level0(t.level0.files)
    ensures t.LayersOf().l0 == None <==> t.level0.files == []
    ensures t.LayersOf().l0 == Some(map[k := c]) <==> t.level0.files != [] && Contents(t.level0.files[0]) == map[k := c]
    ensures t.level0 != t.level1
  {
    hide Contents, LevelTable;
  }

  lemma {:induction false} OnlyValue(files: seq<File>, k: nat, v: Record)
    requires MergedValues(map[k := Cell(Some(v), false)], map[], LevelTable(files))
    ensures Val(LevelTable(files), k).Some? && forall x :: x != k ==> Val(LevelTable(files), x).None?
  {
    var f: Table, g := map[k := Cell(Some(v), false)], LevelTable(files);
    assert Val(g, k) == Val(f, k);
    forall x | x != k ensures Val(g, x).None? { assert Val(g, x) == if x in f then Val(f, x) else Val(map[], x); }
    hide LevelTable;
  }

  // ---------------------------------------------------------------- range search

  /// A file that holds one key as a value and a negative.
  function Pair(id: nat, version: nat, k: nat, v: Record): File {
    File(id, version, k, k, [Entry(k, v), Entry(k, TOMBSTONE)])
  }

  /// A block rewritten after its tombstone, minor-compacted and read through a leaf that is not cached:
  /// point search finds the new record, range search the tombstone.
  lemma {:induction false} RangeMisses(id: nat, version: nat, k: nat, v: Record)
    requires !Negative(v) && k < MAX_KEY
    ensures var f := Pair(id, version, k, v);
      var l := Layers(map[], 0, None, false, Some(Contents(f)), map[]);
      && FileOk(f) && LayersShape(l) && Contents(f) == map[k := Cell(Some(v), true)]
      && Lookup(l, k) == Some(v) && Misread(l, [f], [], map[], k, k, k)
      && RangeAnswer(l, k, Sees0(l, [f], map[], k, k)(k), true) == Some(TOMBSTONE)
  {
    var f := Pair(id, version, k, v);
    var l := Layers(map[], 0, None, false, Some(Contents(f)), map[]);
    assert f.es[..1] == [Entry(k, v)] && f.es[..1][..0] == [];
    assert TableFrom([Entry(k, v)]) == map[k := Cell(Some(v), false)];
    assert Contents(f) == map[k := Cell(Some(v), true)];
    PairLeaf(k, v);
    CacheStep(f, [], {}, k, k);
    assert InMemory(l, k, k) == {};
    FileLoses(f, map[], {}, k, k);
    hide OneLeaf, LeafKey, FileCacheAt, FirstOf;
  }

  lemma {:induction false} PairLeaf(k: nat, v: Record)
    ensures OneLeaf([Entry(k, v), Entry(k, TOMBSTONE)], LEAF_LEN, k)
  {
    assert FirstAt([Entry(k, v), Entry(k, TOMBSTONE)], k) == 0;
  }

  /// Split over two leaves the value is found, cached or not: the search picks the first leaf that ends at
  /// or above the key and never sees the negative.
  lemma {:induction false} SplitIsRead(f: File, cs: Caches, found: set<nat>, start: nat, k: nat)
    requires FileOk(f) && k in Contents(f) && (FirstAt(f.es, k) + 1) % LEAF_LEN == 0
    ensures !LostInLeaf(f, cs, found, start, k)
  {
    var n := FirstAt(f.es, k);
    assert n / LEAF_LEN != (n + 1) / LEAF_LEN;
    hide FirstAt, FileCacheAt, LeafKey;
  }

  /// Such a cell is what putting a value over a negative in one memtable gives.
  lemma {:induction false} RewrittenCell(k: nat, v: Record, t: Table)
    ensures PutCell(t[k := PutCell(t, k, None)], k, Some(v)) == Cell(Some(v), true)
  {
  }
}
