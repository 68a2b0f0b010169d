/** The index as the module keeps it: two memtables in front of two levels of files, refining a
map from keys to records (lsm_tree.c:1637-1810). */
module LsmTree {
  import opened Common
  import opened Index
  import opened Tables
  import opened Level
  import opened Memtable
  import opened Merge
  import opened Catalogue
  import CompactionJob
  import opened MajorCompaction
  import opened LeafCache
  import Engine

  /// The level-0 table: level 0 holds at most one file.
  function Level0(files: seq<File>): Option<Table> {
    if files == [] then None else Some(Contents(files[0]))
  }

  /// Everything the tree's invariant says about the two levels and the catalogue.
  ghost predicate LevelsOk(bits: seq<bool>, next: nat, s0: seq<File>, s1: seq<File>, cap: nat, full: nat) {
    && cap >= 1 && Stocked(bits, next, s0, s1, cap) && |s0| <= 1 && Disjoint(s1)
    && (forall f, g :: f in FileSet(s1) && g in FileSet(s0) ==> f.version < g.version)
    && |s1| <= full && 1 <= full && 2 * full <= |bits|
  }

  /// Every key's newest record, negatives counting as absent.
  ghost predicate Refines(l: Layers, spec: map<nat, Record>) {
    forall k :: Live(l, k) == if k in spec then Some(spec[k]) else None
  }

  function After(spec: map<nat, Record>, k: nat, v: Option<Record>): map<nat, Record> {
    if v.Some? then spec[k := v.value] else spec - {k}
  }

  lemma {:induction false} InsertRefines(l: Layers, spec: map<nat, Record>, k: nat, v: Option<Record>)
    requires LayersShape(l) && Refines(l, spec) && k < MAX_KEY
    requires v.Some? ==> !Negative(v.value)
    ensures LayersShape(Inserted(l, k, v)) && Refines(Inserted(l, k, v), After(spec, k, v))
  {
    var l' := Inserted(l, k, v);
    PutLive(l, l'.size + 1, k, v);
    forall j ensures Live(l', j) == if j in After(spec, k, v) then Some(After(spec, k, v)[j]) else None {
      assert Live(l, j) == if j in spec then Some(spec[j]) else None;
    }
  }

  lemma {:induction false} RotateRefines(l: Layers, spec: map<nat, Record>)
    requires LayersShape(l) && Refines(l, spec) && !l.immPending
    ensures LayersShape(Rotate(l)) && Refines(Rotate(l), spec)
  {
    forall k ensures Live(Rotate(l), k) == Live(l, k) {}
    hide Live;
  }

  lemma {:induction false} PutGrowth(t: Table, k: nat, v: Option<Record>)
    ensures CellWeight(PutCell(t, k, v)) <= KeyWeight(t, k) + 1
  {
  }

  lemma {:induction false} SizeIs(l: Layers, k: nat, v: Option<Record>)
    ensures var s := l.size + CellWeight(PutCell(l.mem, k, v)) - KeyWeight(l.mem, k); s >= 0 ==> PutSize(l, k, v) == s
  {
  }

  lemma {:induction false} MinorRefines(l: Layers, l1': Table, spec: map<nat, Record>)
    requires LayersShape(l) && Refines(l, spec) && l.immPending && TableOk(l1')
    requires l.l0.Some? ==> MergedValues(l.l0.value, l.l1, l1')
    ensures LayersShape(Minor(l, l1')) && Refines(Minor(l, l1'), spec)
  {
    forall k ensures Live(Minor(l, l1'), k) == Live(l, k) { MinorLive(l, l1', k); }
    hide Live;
  }

  /// The two levels meet the needs of a major compaction.
  lemma {:induction false} LevelsReadyOk(bits: seq<bool>, next: nat, s0: seq<File>, s1: seq<File>, cap: nat, full: nat)
    requires LevelsOk(bits, next, s0, s1, cap, full) && s0 != [] && |s1| < full
    ensures Ready(bits, next, s0, s1, cap, full)
  {
    assert s0[0] in FileSet(s0);
  }

  lemma {:induction false} LevelsTables(bits: seq<bool>, next: nat, s0: seq<File>, s1: seq<File>, cap: nat, full: nat)
    requires LevelsOk(bits, next, s0, s1, cap, full)
    ensures TableOk(TableOf(Level0(s0))) && TableOk(LevelTable(s1))
    ensures forall i :: 0 <= i < |s0| ==> FileOk(s0[i])
    ensures forall i :: 0 <= i < |s1| ==> FileOk(s1[i])
  {
    var all := FileSet(s0) + FileSet(s1);
    forall i | 0 <= i < |s0| ensures FileOk(s0[i]) { assert s0[i] in all; }
    forall i | 0 <= i < |s1| ensures FileOk(s1[i]) { assert s1[i] in all; }
    CompactionJob.LevelTableOk(s1);
    if s0 != [] { TableFromOk(s0[0].es); }
  }

  /// After the major compaction and the new level-0 file the levels are as before.
  lemma {:induction false} FreshLevel0(bits: seq<bool>, next: nat, s1: seq<File>, cap: nat, full: nat, f: File)
    requires cap >= 1 && Stocked(bits, next, [], s1, cap) && Disjoint(s1)
    requires |s1| <= full && 1 <= full && 2 * full <= |bits|
    requires FileOk(f) && |f.es| <= cap && f.version == next && f.id < |bits| && !bits[f.id]
    ensures LevelsOk(bits[f.id := true], next + 1, [f], s1, cap, full)
  {
    StockedSwap(bits, next, [], s1, cap);
    assert [][..0] + [f] + [][0..] == [f];
    StockedAdd(bits, next, s1, [], cap, 0, f, next + 1);
    StockedSwap(bits[f.id := true], next + 1, s1, [f], cap);
    forall g | g in FileSet(s1) ensures g.version < next {
      assert g in FileSet([]) + FileSet(s1);
    }
    hide Stocked, Disjoint, FileOk;
  }

  /// The file that minor compaction writes for a memtable.
  lemma {:induction false} MemtableFile(t: Table, order: seq<nat>, size: nat, id: nat, version: nat)
    requires TableOk(t) && Ascending(order) && (forall k :: k in t <==> k in order) && size == Weight(t) && size >= 1
    ensures |EntriesIn(t, order)| == size && FileOk(Built(id, version, EntriesIn(t, order)))
    ensures Contents(Built(id, version, EntriesIn(t, order))) == t
  {
    hide *;
    var es := EntriesIn(t, order);
    EntriesWeight(t, order);
    EntriesShape(t, order);
    EntriesTable(t, order);
    BuiltOk(id, version, es);
    SameTable(TableFrom(es), t, order);
    BuiltContents(id, version, es);
  }

  lemma {:induction false} SameTable(a: Table, b: Table, order: seq<nat>)
    requires forall k :: k in a <==> k in order
    requires forall k :: k in b <==> k in order
    requires forall k :: k in order ==> k in a && k in b && a[k] == b[k]
    ensures a == b
  {
  }

  lemma {:induction false} BuiltContents(id: nat, version: nat, es: seq<Entry>)
    requires es != []
    ensures Contents(Built(id, version, es)) == TableFrom(es) && Built(id, version, es).es == es
    ensures Built(id, version, es).id == id && Built(id, version, es).version == version
  {
  }

  lemma {:induction false} OldTables(l: Layers, s0: seq<File>)
    requires LayersShape(l) && l.l0 == Level0(s0)
    ensures s0 != [] ==> TableOk(Contents(s0[0]))
  {
  }

  /// A compaction as the engine sees it.
  lemma {:induction false} MinorIsStep(l: Layers, s0: seq<File>, s1: seq<File>, s1': seq<File>, att: seq<Entry>)
    requires l.l0 == Level0(s0) && l.l1 == LevelTable(s1) && TableOk(LevelTable(s1'))
    requires s0 == [] ==> s1' == s1 && att == []
    requires s0 != [] ==> MergedValues(Contents(s0[0]), LevelTable(s1), LevelTable(s1'))
    requires s0 != [] ==> AttemptsAre(att, Contents(s0[0]), LevelTable(s1), MAX_KEY) && TableOk(Contents(s0[0]))
    ensures Engine.CompactionOk(l, LevelTable(s1'), att)
  {
    hide LevelTable, Contents, MergedValues;
  }

  /// The file of a disjoint level whose range has the key.
  function FileOf(files: seq<File>, k: nat): Option<File> {
    if files == [] then None else if files[0].first <= k <= files[0].last then Some(files[0]) else FileOf(files[1..], k)
  }

  /// The leaf caches after the levels were searched: files are asked until one knows the key.
  ghost function LevelCaches(t0: Table, s0: seq<File>, s1: seq<File>, cs: Caches, k: nat): Caches {
    var c := if s0 == [] then cs else AskFile(cs, s0[0], k);
    if k in t0 || FileOf(s1, k).None? then c else AskFile(c, FileOf(s1, k).value, k)
  }

  lemma {:induction false} AskedIs(t0: Table, s0: seq<File>, s1: seq<File>, cs: Caches, k: nat)
    ensures var c := if s0 == [] then cs else AskFile(cs, s0[0], k);
      LevelCaches(t0, s0, s1, cs, k) == if k in t0 || FileOf(s1, k).None? then c else AskFile(c, FileOf(s1, k).value, k)
  {
    hide AskFile, FileOf;
  }

  lemma {:induction false} Level0Answer(s0: seq<File>, k: nat, r: Option<Record>)
    requires |s0| <= 1 && (s0 != [] ==> FileOk(s0[0])) && Newest(s0, k, r)
    ensures var t0 := TableOf(Level0(s0)); r == if k in t0 then Some(First(t0[k])) else None
  {
    if s0 != [] { FirstIsTable(s0[0].es, k); }
    hide TableFrom, FirstMatch;
  }

  /// The levels are searched only for a key that no memtable has.
  ghost function PointCaches(l: Layers, s0: seq<File>, s1: seq<File>, cs: Caches, k: nat): Caches {
    if k in l.mem || k in TableOf(l.imm) then cs else LevelCaches(TableOf(l.l0), s0, s1, cs, k)
  }

  /// After a compaction the files that are still there keep their caches; every other file starts with
  /// an empty one.
  predicate Survives(id: nat, before: seq<File>, after: seq<File>) {
    exists i, j :: 0 <= i < |before| && 0 <= j < |after| && before[i].id == after[j].id == id && before[i].es == after[j].es
  }

  function Surviving(cs: Caches, before: seq<File>, after: seq<File>): Caches {
    map id | id in cs && Survives(id, before, after) :: cs[id]
  }

  /// What a compaction does to the leaf caches, file by file: a file that is still there, moved or not, has
  /// the cache it had; a new file of either level has none; and no cache is left for an id without a file.
  ghost predicate Carried(cs: Caches, before: seq<File>, s0': seq<File>, s1': seq<File>, cs': Caches) {
    && (forall f, g :: f in before && g in s1' && f.id == g.id && f.es == g.es ==> CacheOf(cs', g.id) == CacheOf(cs, g.id))
    && (forall g :: g in s1' && NewId(before, g.id) ==> CacheOf(cs', g.id) == [])
    && (forall g :: g in s0' ==> CacheOf(cs', g.id) == [])
    && (forall id :: id in cs' ==> !NewId(s1', id))
  }

  /// No file has the id.
  ghost predicate NewId(files: seq<File>, id: nat) {
    forall f :: f in files ==> f.id != id
  }

  lemma {:induction false} SurvivesIs(id: nat, before: seq<File>, after: seq<File>)
    ensures Survives(id, before, after) <==> exists f, g :: f in before && g in after && f.id == g.id == id && f.es == g.es
  {
    if Survives(id, before, after) {
      var i, j :| 0 <= i < |before| && 0 <= j < |after| && before[i].id == after[j].id == id && before[i].es == after[j].es;
      assert before[i] in before && after[j] in after;
    }
  }

  lemma {:induction false} SurvivingCarries(bits: seq<bool>, next: nat, cs: Caches, before: seq<File>, s0': seq<File>, s1': seq<File>,
                                            cap: nat)
    requires Stocked(bits, next, s0', s1', cap)
    ensures Carried(cs, before, s0', s1', Surviving(cs, before, s1'))
  {
    hide Survives;
    var cs' := Surviving(cs, before, s1');
    forall f, g | f in before && g in s1' && f.id == g.id && f.es == g.es ensures CacheOf(cs', g.id) == CacheOf(cs, g.id) {
      SurvivesIs(g.id, before, s1');
    }
    forall g | g in s1' && NewId(before, g.id) ensures CacheOf(cs', g.id) == [] {
      SurvivesIs(g.id, before, s1');
    }
    forall g | g in s0' ensures CacheOf(cs', g.id) == [] {
      SurvivesIs(g.id, before, s1');
      OtherLevel(bits, next, s0', s1', cap, g);
    }
    forall id | id in cs' ensures !NewId(s1', id) {
      SurvivesIs(id, before, s1');
    }
    hide Stocked;
  }

  lemma {:induction false} OtherLevel(bits: seq<bool>, next: nat, s0: seq<File>, s1: seq<File>, cap: nat, g: File)
    requires Stocked(bits, next, s0, s1, cap) && g in s0
    ensures NewId(s1, g.id)
  {
    var all := FileSet(s0) + FileSet(s1);
    assert g in FileSet(s0) && g in all;
    forall f | f in s1 ensures f.id != g.id { assert f in FileSet(s1) && f in all; }
  }

  lemma {:induction false} LevelsStocked(bits: seq<bool>, next: nat, s0: seq<File>, s1: seq<File>, cap: nat, full: nat)
    requires LevelsOk(bits, next, s0, s1, cap, full)
    ensures Stocked(bits, next, s0, s1, cap)
  {
  }

  class LsmTree {
    const cap: nat
    const level0: BitLevel
    const level1: BitLevel
    const catalogue: Catalogue
    var memtable: Memtable
    var immutable: Memtable?
    /// The immutable memtable still waits for its minor compaction.
    var pending: bool
    /// The recency lists of the leaf caches, by file id.
    var caches: Caches
    /// The map the tree stands for.
    ghost var spec: map<nat, Record>

    ghost function LayersOf(): Layers
      reads this`memtable, this`immutable, this`pending, memtable, immutable, level0, level1
    {
      Layers(memtable.tree, memtable.size, if immutable == null then None else Some(immutable.tree), pending,
             Level0(level0.files), LevelTable(level1.files))
    }

    ghost predicate LevelsValid()
      reads level0, level1, catalogue, catalogue.bits
    {
      && cap >= 1 && level0 != level1 && catalogue.Valid() && level0.Valid() && level1.Valid()
      && level0.maxSize >= 1 && level0.capacity == 1 && level1.maxSize == 2 * level1.capacity + 1
      && LevelsOk(catalogue.bits.table, catalogue.maxVersion, level0.files, level1.files, cap, level1.capacity)
    }

    /// The invariant, but for a memtable that may just have filled up.
    ghost predicate Settled()
      reads this`memtable, this`immutable, this`pending, this`spec
      reads memtable, immutable, level0, level1, catalogue, catalogue.bits
    {
      && LevelsValid()
      && memtable.Valid() && memtable.size <= cap
      && (immutable != null ==> immutable != memtable && immutable.Valid() && 1 <= immutable.size <= cap)
      && LayersShape(LayersOf()) && Refines(LayersOf(), spec)
    }

    ghost predicate Valid()
      reads this`memtable, this`immutable, this`pending, this`spec
      reads memtable, immutable, level0, level1, catalogue, catalogue.bits
    {
      Settled() && memtable.size < cap
    }

    /// lsm_tree_init on a formatted device.
    constructor (capacity: nat, maxLevelFiles: nat)
      requires capacity >= 1 && maxLevelFiles >= 1
      ensures Valid() && spec == map[] && cap == capacity && level1.capacity == maxLevelFiles
      ensures LayersOf() == Layers(map[], 0, None, false, None, map[]) && caches == map[]
      ensures level0.files == [] && level1.files == []
      ensures fresh(memtable) && fresh(level0) && fresh(level1) && fresh(catalogue) && fresh(catalogue.bits) && immutable == null
    {
      cap := capacity;
      level0 := new BitLevel(0, 1);
      level1 := new BitLevel(1, maxLevelFiles);
      catalogue := new Catalogue(2 * maxLevelFiles);
      memtable := new Memtable();
      immutable := null;
      pending := false;
      caches := map[];
      spec := map[];
    }

    /// The files of both levels are sound, and their tables are the two lowest of the index.
    lemma {:induction false} Stock()
      requires Valid()
      ensures CompactionJob.AllOk(level1.files) && |level0.files| <= 1 && (level0.files != [] ==> FileOk(level0.files[0]))
      ensures LayersOf().l0 == Level0(level0.files) && LayersOf().l1 == LevelTable(level1.files)
    {
      LevelsTables(catalogue.bits.table, catalogue.maxVersion, level0.files, level1.files, cap, level1.capacity);
    }

    lemma {:induction false} Layered()
      ensures LayersOf().mem == memtable.tree && LayersOf().immPending == pending
    {
    }

    /// A full memtable becomes the immutable one; its minor compaction is queued.
    method RotateMemtable()
      requires Settled() && memtable.size == cap && !pending
      modifies this`memtable, this`immutable, this`pending
      ensures Valid() && LayersOf() == Rotate(old(LayersOf())) && spec == old(spec) && fresh(memtable)
    {
      RotateRefines(LayersOf(), spec);
      assert LevelsValid() && cap >= 1;
      hide LevelsValid, Refines, LayersShape, LevelTable, Level0;
      immutable := memtable;
      pending := true;
      memtable := new Memtable();
    }

    /// The record goes into the memtable, which may be full afterwards.
    method Insert(k: nat, v: Option<Record>) returns (prev: Option<Record>)
      requires Valid() && k < MAX_KEY && (v.Some? ==> !Negative(v.value))
      modifies this`spec, memtable
      ensures Settled() && prev == Replaced(old(memtable.tree), k, v)
      ensures LayersOf() == Inserted(old(LayersOf()), k, v)
      ensures spec == After(old(spec), k, v)
    {
      hide *;
      ghost var l := LayersOf();
      Parts();
      InsertRefines(l, spec, k, v);
      PutGrowth(memtable.tree, k, v);
      SizeIs(l, k, v);
      prev := memtable.Put(k, v);
      spec := After(spec, k, v);
      LayersAre(Inserted(l, k, v), l, k, v);
      SettledIs();
    }

    lemma {:induction false} Parts()
      requires Valid()
      ensures LevelsValid() && memtable.Valid() && memtable.size < cap
      ensures immutable != null ==> immutable != memtable && immutable.Valid() && 1 <= immutable.size <= cap
      ensures LayersShape(LayersOf()) && Refines(LayersOf(), spec)
      ensures LayersOf() == Layers(memtable.tree, memtable.size, if immutable == null then None else Some(immutable.tree),
                                   pending, Level0(level0.files), LevelTable(level1.files))
    {
    }

    lemma {:induction false} LayersAre(l': Layers, l: Layers, k: nat, v: Option<Record>)
      requires l == Layers(l.mem, l.size, if immutable == null then None else Some(immutable.tree), pending,
                           Level0(level0.files), LevelTable(level1.files))
      requires memtable.tree == l.mem[k := PutCell(l.mem, k, v)] && memtable.size == PutSize(l, k, v)
      requires l' == Inserted(l, k, v)
      ensures LayersOf() == l'
    {
    }

    lemma {:induction false} SettledIs()
      requires LevelsValid() && memtable.Valid() && memtable.size <= cap
      requires immutable != null ==> immutable != memtable && immutable.Valid() && 1 <= immutable.size <= cap
      requires LayersShape(LayersOf()) && Refines(LayersOf(), spec)
      ensures Settled()
    {
    }

    /// lsm_tree_put.
    method Put(k: nat, v: Option<Record>) returns (prev: Option<Record>)
      requires Valid() && k < MAX_KEY && (v.Some? ==> !Negative(v.value))
      requires Rotates(LayersOf(), cap, k, v) ==> !pending
      modifies this`memtable, this`immutable, this`pending, this`spec, memtable
      ensures Valid()
      ensures LayersOf() == Index.Put(old(LayersOf()), cap, k, v)
      ensures prev == Replaced(old(memtable.tree), k, v)
      ensures spec == After(old(spec), k, v)
      ensures memtable == old(memtable) || fresh(memtable)
    {
      hide LevelsValid, Refines, LayersShape, LevelTable, Level0, After, PutCell, CellWeight, KeyWeight, Replaced, PutSize;
      prev := Insert(k, v);
      if memtable.size >= cap {
        RotateMemtable();
      }
    }

    /// The part of lsm_tree_search below the memtables.  Every file that is asked uses its leaf cache.
    method SearchLevels(k: nat) returns (r: Option<Record>)
      requires Valid()
      modifies this`caches
      ensures var t0, t1 := TableOf(Level0(level0.files)), LevelTable(level1.files);
        r == if k in t0 then Some(First(t0[k])) else if k in t1 then Some(First(t1[k])) else None
      ensures caches == LevelCaches(TableOf(Level0(level0.files)), level0.files, level1.files, old(caches), k)
    {
      hide *;
      LevelParts();
      r := level0.LinearSearch(k);
      Level0Answer(level0.files, k, r);
      ghost var s0, s1 := level0.files, level1.files;
      AskedIs(TableOf(Level0(s0)), s0, s1, caches, k);
      if level0.files != [] { caches := AskFile(caches, level0.files[0], k); }
      if r.Some? { return; }
      r := level1.Search(k);
      var f := FileOf(level1.files, k);
      if f.Some? { caches := AskFile(caches, f.value, k); }
    }

    lemma {:induction false} LevelParts()
      requires Valid()
      ensures level0.Valid() && level1.Valid() && Disjoint(level1.files) && |level0.files| <= 1
      ensures level0.files != [] ==> FileOk(level0.files[0])
    {
    }

    /// lsm_tree_search: the newest record of a key, negative or not.
    method Search(k: nat) returns (r: Option<Record>)
      requires Valid()
      modifies this`caches
      ensures r == Lookup(LayersOf(), k)
      ensures k in spec ==> r == Some(spec[k])
      ensures k !in spec ==> r.None? || Negative(r.value)
      ensures caches == PointCaches(LayersOf(), level0.files, level1.files, old(caches), k)
    {
      assert Live(LayersOf(), k) == if k in spec then Some(spec[k]) else None;
      assert memtable.Valid() && (immutable != null ==> immutable.Valid());
      hide Refines, LayersShape, LevelTable, LevelsValid, LevelCaches;
      r := memtable.Get(k);
      if r.Some? { return; }
      if immutable != null {
        r := immutable.Get(k);
        if r.Some? { return; }
      }
      r := SearchLevels(k);
    }

    /// The level-0 part of a minor compaction: a full level 0 is first merged into level 1.
    method MakeRoom() returns (ok: bool, att: seq<Entry>, ghost p: nat, ghost q: nat)
      requires LevelsValid() && (level0.files != [] ==> |level1.files| < level1.capacity)
      modifies catalogue, catalogue.bits, level0, level1
      ensures catalogue.Valid() && level0.Valid() && level1.Valid() && p <= q <= |old(level1.files)|
      ensures old(level0.files) != [] ==> CompactionJob.RunOk(old(level1.files), old(level0.files)[0], p, q)
      ensures ok <==> old(level0.files) == [] || p == q ||
                      !EndsEmpty(Contents(old(level0.files)[0]), LevelTable(old(level1.files)[p..q]), cap)
      ensures ok && old(level0.files) != [] ==>
        JobDone(old(level0.files)[0], old(level1.files), catalogue.bits.table, catalogue.maxVersion,
                level0.files, level1.files, att, cap)
      ensures ok && old(level0.files) != [] ==>
        Relinked(old(level0.files)[0], old(level1.files), p, q, old(catalogue.maxVersion), level1.files, cap)
      ensures |level1.files| <= |old(level1.files)| + if old(level0.files) == [] then 0 else 1
      ensures ok && old(level0.files) == [] ==>
        LevelsValid() && level0.files == [] && level1.files == old(level1.files) && att == []
      ensures !ok ==> LevelsValid() && level0.files == old(level0.files) && level1.files == old(level1.files)
    {
      ok, att, p, q := true, [], 0, 0;
      var full := level0.IsFull();
      if full {
        LevelsReadyOk(catalogue.bits.table, catalogue.maxVersion, level0.files, level1.files, cap, level1.capacity);
        hide Ready, JobDone, EndsEmpty, LevelsOk, Relinked;
        ok, att, p, q := Run(catalogue, level0, level1, cap);
      }
    }

    /// The entries a memtable hands to the builder, in tree order, value before negative.
    method Collect(m: Memtable) returns (es: seq<Entry>, ghost order: seq<nat>)
      ensures Ascending(order) && (forall k :: k in m.tree <==> k in order)
      ensures es == EntriesIn(m.tree, order)
    {
      var keys := m.GetAllEntry();
      order := keys;
      es := [];
      hide Ascending;
      for i := 0 to |keys|
        invariant es == EntriesIn(m.tree, keys[..i])
      {
        var cell := m.tree[keys[i]];
        assert keys[..i+1][..i] == keys[..i];
        ghost var before := es;
        if cell.val.Some? { es := es + [Entry(keys[i], cell.val.value)]; }
        if cell.neg { es := es + [Entry(keys[i], TOMBSTONE)]; }
        assert es == before + CellEntries(keys[i], cell);
      }
      assert keys[..|keys|] == keys;
    }

    /// The new level-0 file of a minor compaction.
    method WriteLevel0(m: Memtable)
      requires m.Valid() && 1 <= m.size <= cap && level0 != level1 && cap >= 1
      requires catalogue.Valid() && level0.Valid() && level1.Valid() && level0.files == [] && level0.maxSize >= 1
      requires Stocked(catalogue.bits.table, catalogue.maxVersion, [], level1.files, cap) && Disjoint(level1.files)
      requires |level1.files| <= level1.capacity && 1 <= level1.capacity && 2 * level1.capacity <= |catalogue.bits.table|
      modifies catalogue, catalogue.bits, level0
      ensures catalogue.Valid() && level0.Valid() && level1.Valid()
      ensures LevelsOk(catalogue.bits.table, catalogue.maxVersion, level0.files, level1.files, cap, level1.capacity)
      ensures Level0(level0.files) == Some(m.tree) && |level0.files| == 1
    {
      hide Stocked, Disjoint, FileOk, TableOk, Weight, LevelsOk, Contents;
      ghost var bits, next := catalogue.bits.table, catalogue.maxVersion;
      var es, order := Collect(m);
      StockedCount(bits, next, [], level1.files, cap);
      var fd := catalogue.AllocFile();
      var version := catalogue.NextVersion();
      MemtableFile(m.tree, order, m.size, fd.value, version);
      var f := Built(fd.value, version, es);
      var ok := level0.AddFile(f);
      assert level0.files == [f];
      FreshLevel0(bits, next, level1.files, cap, level1.capacity, f);
    }

    lemma {:induction false} MinorParts()
      requires Valid() && pending
      ensures immutable != null && level0 != level1 && cap >= 1 && |level0.files| <= 1 && catalogue.Valid()
      ensures level0.maxSize >= 1 && level0.capacity == 1 && level1.maxSize == 2 * level1.capacity + 1
      ensures 1 <= level1.capacity && 2 * level1.capacity <= catalogue.bits.nr
    {
    }

    /// The levels are ready for the new level-0 file, whether or not a merge came first.
    lemma {:induction false} RoomMade(s0: seq<File>, s1: seq<File>, att: seq<Entry>)
      requires catalogue.Valid() && 1 <= level1.capacity && 2 * level1.capacity <= catalogue.bits.nr
      requires s0 != [] ==> |s1| < level1.capacity
      requires s0 != [] ==> JobDone(s0[0], s1, catalogue.bits.table, catalogue.maxVersion, level0.files, level1.files, att, cap)
      requires s0 == [] ==> LevelsValid() && level0.files == [] && level1.files == s1 && att == []
      ensures level0.files == [] && Stocked(catalogue.bits.table, catalogue.maxVersion, [], level1.files, cap)
      ensures Disjoint(level1.files) && |level1.files| <= level1.capacity
      ensures 2 * level1.capacity <= |catalogue.bits.table|
      ensures s0 != [] ==> MergedValues(Contents(s0[0]), LevelTable(s1), LevelTable(level1.files))
      ensures s0 != [] ==> AttemptsAre(att, Contents(s0[0]), LevelTable(s1), MAX_KEY)
    {
      hide Stocked, MergedValues, AttemptsAre, Contents, LevelTable;
    }

    /// The state after the new level-0 file is in place.
    lemma {:induction false} MinorDone(l: Layers, s0: seq<File>, s1: seq<File>, att: seq<Entry>)
      requires immutable != null && immutable != memtable && immutable.Valid() && 1 <= immutable.size <= cap && !pending
      requires memtable.Valid() && memtable.size < cap && level0 != level1 && cap >= 1
      requires catalogue.Valid() && level0.Valid() && level1.Valid() && level0.maxSize >= 1 && level0.capacity == 1
      requires level1.maxSize == 2 * level1.capacity + 1
      requires LevelsOk(catalogue.bits.table, catalogue.maxVersion, level0.files, level1.files, cap, level1.capacity)
      requires LayersShape(l) && Refines(l, spec) && Engine.CompactionOk(l, LevelTable(level1.files), att)
      requires l == Layers(memtable.tree, memtable.size, Some(immutable.tree), true, Level0(s0), LevelTable(s1))
      requires Level0(level0.files) == Some(immutable.tree) && (s0 == [] ==> level1.files == s1)
      ensures Valid() && LayersOf() == Minor(l, LevelTable(level1.files))
    {
      var l1' := LevelTable(level1.files);
      assert TableOk(l1') && (l.l0.Some? ==> MergedValues(l.l0.value, l.l1, l1'));
      assert LayersOf() == Minor(l, l1') by { hide LevelsOk, Stocked, LayersShape, Refines, LevelTable, TableOk; }
      MinorRefines(l, l1', spec);
      hide LevelsOk, Stocked, LayersShape, Refines, LevelTable, TableOk, MergedValues, LayersOf, Minor;
    }

    lemma {:induction false} StillValid(l: Layers)
      requires LevelsValid() && memtable.Valid() && memtable.size < cap && immutable != null
      requires immutable != memtable && immutable.Valid() && 1 <= immutable.size <= cap
      requires l == Layers(memtable.tree, memtable.size, Some(immutable.tree), pending,
                           Level0(level0.files), LevelTable(level1.files))
      requires LayersShape(l) && Refines(l, spec)
      ensures Valid() && LayersOf() == l
    {
    }

    /// lsm_tree_minor_compaction of the immutable memtable.  `ok` is false when the nested major
    /// compaction would complete an empty file; nothing has changed then.
    method MinorCompaction() returns (ok: bool, att: seq<Entry>, ghost p: nat, ghost q: nat)
      requires Valid() && pending && (level0.files != [] ==> |level1.files| < level1.capacity)
      modifies this`pending, this`caches, catalogue, catalogue.bits, level0, level1
      ensures Valid() && p <= q <= |old(level1.files)|
      ensures old(level0.files) != [] ==> CompactionJob.RunOk(old(level1.files), old(level0.files)[0], p, q)
      ensures caches == if ok then Surviving(old(caches), old(level0.files + level1.files), level1.files) else old(caches)
      ensures ok ==> |level0.files| == 1 && Carried(old(caches), old(level0.files + level1.files), level0.files, level1.files, caches)
      ensures ok && old(level0.files) != [] ==>
        Relinked(old(level0.files)[0], old(level1.files), p, q, old(catalogue.maxVersion), level1.files, cap)
      ensures old(level0.files) == [] ==> level1.files == old(level1.files)
      ensures ok <==> old(level0.files) == [] || p == q ||
                      !EndsEmpty(Contents(old(level0.files)[0]), LevelTable(old(level1.files)[p..q]), cap)
      ensures ok ==> Engine.CompactionOk(old(LayersOf()), LevelTable(level1.files), att)
      ensures ok ==> LayersOf() == Minor(old(LayersOf()), LevelTable(level1.files))
      ensures |level1.files| <= |old(level1.files)| + if old(level0.files) == [] then 0 else 1
      ensures !ok ==> LayersOf() == old(LayersOf())
    {
      hide *;
      ghost var l, s0, s1 := LayersOf(), level0.files, level1.files;
      Parts();
      MinorParts();
      var before := level0.files + level1.files;
      ok, att, p, q := MakeRoom();
      if ok {
        RoomMade(s0, s1, att);
        WriteLevel0(immutable);
        pending := false;
        LevelsStocked(catalogue.bits.table, catalogue.maxVersion, level0.files, level1.files, cap, level1.capacity);
        SurvivingCarries(catalogue.bits.table, catalogue.maxVersion, caches, before, level0.files, level1.files, cap);
        caches := Surviving(caches, before, level1.files);
        LevelsTables(catalogue.bits.table, catalogue.maxVersion, level0.files, level1.files, cap, level1.capacity);
        OldTables(l, s0);
        MinorIsStep(l, s0, s1, level1.files, att);
        MinorDone(l, s0, s1, att);
      } else {
        StillValid(l);
      }
    }
  }
}
