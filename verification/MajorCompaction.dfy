/** compaction_job_run on the two levels and the catalogue. */
module MajorCompaction {
  import opened Common
  import opened Index
  import opened Tables
  import opened Level
  import opened Merge
  import opened Compaction
  import opened Catalogue
  import opened CompactionJob
  import Segments

  /// A fresh file for one completed builder.
  function Built(id: nat, version: nat, es: seq<Entry>): File
    requires es != []
  {
    File(id, version, es[0].key, es[|es|-1].key, es)
  }

  lemma {:induction false} BuiltOk(id: nat, version: nat, es: seq<Entry>)
    requires es != [] && Shape(es)
    ensures FileOk(Built(id, version, es))
  {
  }

  /// What the builders of a merge hold.
  ghost predicate Fillings(chunks: seq<seq<Entry>>, cap: nat) {
    forall i :: 0 <= i < |chunks| ==> chunks[i] != [] && |chunks[i]| <= cap && Plain(chunks[i])
  }

  lemma {:induction false} ChunkPlain(chunks: seq<seq<Entry>>, f: Table, g: Table, i: nat)
    requires OutIs(FlatChunks(chunks), f, g, MAX_KEY) && TableOk(f) && TableOk(g) && i < |chunks|
    ensures Plain(chunks[i])
  {
    OutStrict(FlatChunks(chunks), f, g);
    ChunksStrict(chunks);
    forall e | e in chunks[i] ensures e.key < MAX_KEY && !Negative(e.rec) {
      FlatMembers(chunks, e);
    }
  }

  lemma {:induction false} FillingsOk(chunks: seq<seq<Entry>>, cap: nat, f: Table, g: Table)
    requires OutIs(FlatChunks(chunks), f, g, MAX_KEY) && TableOk(f) && TableOk(g)
    requires cap >= 1 && ChunksOk(chunks, cap) && chunks[|chunks|-1] != []
    ensures Fillings(chunks, cap)
  {
    hide OutIs, TableOk, Plain, FlatChunks;
    forall i | 0 <= i < |chunks| ensures chunks[i] != [] && |chunks[i]| <= cap && Plain(chunks[i]) {
      ChunkPlain(chunks, f, g, i);
    }
  }

  /// One completed builder becomes a file of level 1, with a new id and a new version.
  method InstallOne(cat: Catalogue, level1: BitLevel, es: seq<Entry>, cap: nat, ghost s0: seq<File>) returns (f: File)
    requires cat.Valid() && level1.Valid() && es != [] && |es| <= cap && Plain(es)
    requires Stocked(cat.bits.table, cat.maxVersion, s0, level1.files, cap)
    requires |s0| + |level1.files| + 1 <= cat.bits.nr && |level1.files| + 1 <= level1.maxSize
    modifies cat, cat.bits, level1
    ensures cat.Valid() && level1.Valid() && FileOk(f) && f.es == es
    ensures f.version == old(cat.maxVersion) && cat.maxVersion == old(cat.maxVersion) + 1
    ensures Stocked(cat.bits.table, cat.maxVersion, s0, level1.files, cap)
    ensures f !in FileSet(old(level1.files)) && FileSet(level1.files) == FileSet(old(level1.files)) + {f}
    ensures |level1.files| == |old(level1.files)| + 1
  {
    hide Stocked, FileOk, CmpSorted, Plain, NoDup, Segments.FirstClear;
    ghost var bits, next, s1 := cat.bits.table, cat.maxVersion, level1.files;
    StockedCount(bits, next, s0, s1, cap);
    var fd := cat.AllocFile();
    var version := cat.NextVersion();
    PlainShape(es);
    BuiltOk(fd.value, version, es);
    f := Built(fd.value, version, es);
    StockedNew(bits, next, s0, s1, cap, f);
    var ok := level1.AddFile(f);
    ghost var pos: nat :| pos <= |s1| && level1.files == s1[..pos] + [f] + s1[pos..];
    StockedAdd(bits, next, s0, s1, cap, pos, f, next + 1);
    InsertSet(s1, pos, f);
  }

  /// The files made for these builders, versions counting up.
  ghost predicate MadeFrom(made: seq<File>, chunks: seq<seq<Entry>>, version: nat) {
    FreshOk(made, chunks) && forall i :: 0 <= i < |made| ==> made[i].version == version + i
  }

  lemma {:induction false} MadeNext(made: seq<File>, chunks: seq<seq<Entry>>, version: nat, i: nat, f: File)
    requires i < |chunks| && MadeFrom(made, chunks[..i], version) && FileOk(f) && f.es == chunks[i] && Plain(chunks[i])
    requires f.version == version + i
    ensures MadeFrom(made + [f], chunks[..i+1], version) && FileSet(made + [f]) == FileSet(made) + {f}
  {
    assert chunks[..i+1] == chunks[..i] + [chunks[i]];
    hide FileOk, Plain;
  }

  lemma {:induction false} MadeNone(chunks: seq<seq<Entry>>, version: nat)
    ensures MadeFrom([], chunks[..0], version) && FileSet([]) == {} && chunks[..|chunks|] == chunks
  {
  }

  lemma {:induction false} FillingAt(chunks: seq<seq<Entry>>, cap: nat, i: nat)
    requires Fillings(chunks, cap) && i < |chunks|
    ensures chunks[i] != [] && |chunks[i]| <= cap && Plain(chunks[i])
  {
    hide Plain;
  }

  /// Completed builders become files of level 1.
  method Install(cat: Catalogue, level1: BitLevel, chunks: seq<seq<Entry>>, cap: nat, ghost s0: seq<File>)
    returns (made: seq<File>)
    requires cat.Valid() && level1.Valid() && Fillings(chunks, cap)
    requires Stocked(cat.bits.table, cat.maxVersion, s0, level1.files, cap)
    requires |s0| + |level1.files| + |chunks| <= cat.bits.nr && |level1.files| + |chunks| <= level1.maxSize
    modifies cat, cat.bits, level1
    ensures cat.Valid() && level1.Valid() && cat.maxVersion == old(cat.maxVersion) + |chunks|
    ensures Stocked(cat.bits.table, cat.maxVersion, s0, level1.files, cap)
    ensures MadeFrom(made, chunks, old(cat.maxVersion)) && FileSet(made) !! FileSet(old(level1.files))
    ensures FileSet(level1.files) == FileSet(old(level1.files)) + FileSet(made)
    ensures |level1.files| == |old(level1.files)| + |chunks|
  {
    hide *;
    made := [];
    MadeNone(chunks, cat.maxVersion);
    for i := 0 to |chunks|
      invariant cat.Valid() && level1.Valid() && cat.maxVersion == old(cat.maxVersion) + i
      invariant Stocked(cat.bits.table, cat.maxVersion, s0, level1.files, cap)
      invariant MadeFrom(made, chunks[..i], old(cat.maxVersion)) && FileSet(made) !! FileSet(old(level1.files))
      invariant FileSet(level1.files) == FileSet(old(level1.files)) + FileSet(made)
      invariant |level1.files| == |old(level1.files)| + i
    {
      FillingAt(chunks, cap, i);
      var f := InstallOne(cat, level1, chunks[i], cap, s0);
      MadeNext(made, chunks, old(cat.maxVersion), i, f);
      made := made + [f];
    }
  }

  lemma {:induction false} StockedCount(bits: seq<bool>, next: nat, s0: seq<File>, s1: seq<File>, cap: nat)
    requires Stocked(bits, next, s0, s1, cap)
    ensures Segments.Count(bits) == |s0| + |s1|
  {
  }

  lemma {:induction false} StockedNew(bits: seq<bool>, next: nat, s0: seq<File>, s1: seq<File>, cap: nat, f: File)
    requires Stocked(bits, next, s0, s1, cap) && f.id < |bits| && !bits[f.id]
    ensures f !in FileSet(s0) && f !in FileSet(s1)
  {
    assert f !in FileSet(s0) + FileSet(s1);
  }

  /// The merged files leave level 1 and give their ids back.
  method Uninstall(cat: Catalogue, level1: BitLevel, rel: seq<File>, cap: nat, ghost s0: seq<File>)
    requires cat.Valid() && level1.Valid() && NoDup(rel) && FileSet(rel) <= FileSet(level1.files)
    requires Stocked(cat.bits.table, cat.maxVersion, s0, level1.files, cap)
    modifies cat.bits, level1
    ensures cat.Valid() && level1.Valid()
    ensures Stocked(cat.bits.table, cat.maxVersion, s0, level1.files, cap)
    ensures FileSet(level1.files) == FileSet(old(level1.files)) - FileSet(rel)
    ensures |level1.files| == |old(level1.files)| - |rel|
  {
    hide Stocked, FileOk, CmpSorted, NoDup;
    assert rel[..0] == [];
    for j := 0 to |rel|
      invariant cat.Valid() && level1.Valid()
      invariant Stocked(cat.bits.table, cat.maxVersion, s0, level1.files, cap)
      invariant FileSet(level1.files) == FileSet(old(level1.files)) - FileSet(rel[..j])
      invariant |level1.files| == |old(level1.files)| - j
    {
      ghost var bits, next, s1 := cat.bits.table, cat.maxVersion, level1.files;
      var f := rel[j];
      assert f in FileSet(rel);
      NotEarlier(rel, j);
      assert f in FileSet(s1);
      ghost var where := IndexOf(s1, f);
      assert s1[where].id == f.id;
      var ok := level1.RemoveFile(f.id);
      ghost var p: nat :| p < |s1| && s1[p].id == f.id && level1.files == Without(s1, p);
      StockedId(bits, next, s0, s1, cap, p, f);
      StockedRemove(bits, next, s0, s1, cap, p);
      StockedNoDup(bits, next, s0, s1, cap);
      WithoutSet(s1, p);
      cat.ReleaseFile(f.id);
      assert rel[..j+1] == rel[..j] + [f];
      assert FileSet(rel[..j+1]) == FileSet(rel[..j]) + {f};
    }
    assert rel[..|rel|] == rel;
  }

  lemma {:induction false} StockedNoDup(bits: seq<bool>, next: nat, s0: seq<File>, s1: seq<File>, cap: nat)
    requires Stocked(bits, next, s0, s1, cap)
    ensures NoDup(s0) && NoDup(s1)
  {
  }

  lemma {:induction false} NotEarlier(rel: seq<File>, j: nat)
    requires NoDup(rel) && j < |rel|
    ensures rel[j] !in FileSet(rel[..j])
  {
  }

  /// Ids are unique.
  lemma {:induction false} StockedId(bits: seq<bool>, next: nat, s0: seq<File>, s1: seq<File>, cap: nat, p: nat, f: File)
    requires Stocked(bits, next, s0, s1, cap) && p < |s1| && f in FileSet(s1) && s1[p].id == f.id
    ensures s1[p] == f
  {
    assert s1[p] in FileSet(s0) + FileSet(s1) && f in FileSet(s0) + FileSet(s1);
  }

  // ---------------------------------------------------------------- the whole job

  /// What a major compaction needs: one file in level 0, newer than everything in level 1; level 1
  /// disjoint and not full; catalogue and level sized for twice a full level (metadata.c:1157-1160, lsm_tree.c:1272).
  ghost predicate Ready(bits: seq<bool>, next: nat, s0: seq<File>, s1: seq<File>, cap: nat, full: nat) {
    && cap >= 1 && Stocked(bits, next, s0, s1, cap) && |s0| == 1 && Disjoint(s1)
    && (forall f :: f in FileSet(s1) ==> f.version < s0[0].version)
    && |s1| < full && 2 * full <= |bits|
  }

  /// The merge would complete a builder without entries: every earlier file came out full, and the
  /// greatest merged key keeps no value.
  ghost predicate EndsEmpty(f: Table, g: Table, cap: nat)
    requires cap >= 1
  {
    |KeptKeys(f, g)| % cap == 0 && exists k :: Greatest(f, g, k) && Kept(f, g, k).None?
  }

  lemma {:induction false} ReadyParts(bits: seq<bool>, next: nat, s0: seq<File>, s1: seq<File>, cap: nat, full: nat)
    requires Ready(bits, next, s0, s1, cap, full)
    ensures cap >= 1 && |s0| == 1 && FileOk(s0[0]) && |s0[0].es| <= cap && AllOk(s1) && NoDup(s1)
    ensures forall i :: 0 <= i < |s1| ==> s1[i].version < s0[0].version && s1[i].id != s0[0].id && |s1[i].es| <= cap
    ensures forall i, j :: 0 <= i < j < |s1| ==> s1[i].id != s1[j].id
  {
    var all := FileSet(s0) + FileSet(s1);
    assert s0[0] in all;
    forall i | 0 <= i < |s1|
      ensures FileOk(s1[i]) && s1[i].version < s0[0].version && s1[i].id != s0[0].id && |s1[i].es| <= cap
    {
      assert s1[i] in FileSet(s1) && s1[i] in all;
    }
    forall i, j | 0 <= i < j < |s1| ensures s1[i].id != s1[j].id {
      assert s1[i] in all && s1[j] in all;
    }
  }

  /// Before anything is written: the tables are sound and the output fits.
  lemma {:induction false} OutFits(f0: File, rel: seq<File>, chunks: seq<seq<Entry>>, cap: nat)
    requires FileOk(f0) && |f0.es| <= cap && AllOk(rel) && forall i :: 0 <= i < |rel| ==> |rel[i].es| <= cap
    requires OutIs(FlatChunks(chunks), Contents(f0), LevelTable(rel), MAX_KEY)
    ensures TableOk(Contents(f0)) && TableOk(LevelTable(rel))
    ensures |FlatChunks(chunks)| == |KeptKeys(Contents(f0), LevelTable(rel))| <= (|rel| + 1) * cap
  {
    TableFromOk(f0.es);
    assert forall i :: 0 <= i < |rel| ==> FileOk(rel[i]);
    assert Disjoint(rel);
    hide FileOk, Disjoint, AllOk;
    LevelTableOk(rel);
    hide TableOk, OutIs, FlatChunks, LevelTable;
    OutCount(FlatChunks(chunks), Contents(f0), LevelTable(rel));
    KeysBound(f0.es);
    ConcatTable(rel);
    KeysBound(Concat(rel));
    ConcatBound(rel, cap);
    assert (|rel| + 1) * cap == |rel| * cap + cap;
  }

  /// The last builder is empty exactly when `EndsEmpty`.
  lemma {:induction false} EmptyMeans(chunks: seq<seq<Entry>>, f: Table, g: Table, cap: nat, k: nat)
    requires cap >= 1 && ChunksOk(chunks, cap) && LastEmptyIff(chunks, cap, f, g)
    requires |FlatChunks(chunks)| == |KeptKeys(f, g)| && Greatest(f, g, k)
    ensures chunks[|chunks|-1] == [] <==> EndsEmpty(f, g, cap)
  {
    hide FlatChunks, Kept, KeptKeys;
    if EndsEmpty(f, g, cap) {
      var j :| Greatest(f, g, j) && Kept(f, g, j).None?;
    }
  }

  /// What a finished job has done: level 0 is empty, level 1 is disjoint and at most one file longer,
  /// its table keeps every value, and `att` are the releases of all overwritten keys.
  ghost predicate JobDone(f0: File, s1: seq<File>, bits: seq<bool>, next: nat, s0': seq<File>, s1': seq<File>,
                          att: seq<Entry>, cap: nat) {
    && s0' == [] && Stocked(bits, next, [], s1', cap) && AllOk(s1') && |s1'| <= |s1| + 1
    && MergedValues(Contents(f0), LevelTable(s1), LevelTable(s1'))
    && AttemptsAre(att, Contents(f0), LevelTable(s1), MAX_KEY)
  }

  /// How level 1 changes.  Without an overlap the file of level 0 comes down under the next version.  Otherwise
  /// exactly the files of the run go, and new files come.
  ghost predicate Relinked(f0: File, s1: seq<File>, p: nat, q: nat, version: nat, s1': seq<File>, cap: nat)
    requires p <= q <= |s1|
  {
    if p == q then FileSet(s1') == FileSet(s1) + {f0.(version := version)}
    else FileSet(s1) - FileSet(s1') == FileSet(s1[p..q]) && NewFiles(f0, s1, FileSet(s1') - FileSet(s1), version, cap)
  }

  /// Files made by a merge: their ids belonged to none of the files there were, their versions are new and
  /// their own, they hold one value for each of their keys and no negatives, and at most one of them is not full.
  ghost predicate NewFiles(f0: File, s1: seq<File>, made: set<File>, version: nat, cap: nat) {
    && (forall g :: g in made ==> g.id != f0.id && version <= g.version && (forall f :: f in FileSet(s1) ==> f.id != g.id))
    && (forall g :: g in made ==> Plain(g.es))
    && (forall g, h :: g in made && h in made && g.version == h.version ==> g == h)
    && (forall g, h :: g in made && h in made && |g.es| < cap && |h.es| < cap ==> g == h)
  }

  /// After the files were installed, and before the old ones go, all ids are distinct.
  lemma {:induction false} NewFilesOk(bits: seq<bool>, next: nat, f0: File, s1: seq<File>, mid: seq<File>, made: seq<File>,
                                      chunks: seq<seq<Entry>>, version: nat, cap: nat)
    requires Stocked(bits, next, [f0], mid, cap) && FileSet(mid) == FileSet(s1) + FileSet(made) && FileSet(made) !! FileSet(s1)
    requires MadeFrom(made, chunks, version) && ChunksOk(chunks, cap)
    ensures NewFiles(f0, s1, FileSet(made), version, cap)
  {
    hide Stocked, MadeFrom, ChunksOk, Plain;
    forall g | g in FileSet(made) ensures g.id != f0.id && version <= g.version && (forall f :: f in FileSet(s1) ==> f.id != g.id) {
      NewId(bits, next, f0, s1, mid, g, cap);
      var i := MadeAt(made, chunks, version, cap, g);
    }
    forall g | g in FileSet(made) ensures Plain(g.es) { var i := MadeAt(made, chunks, version, cap, g); }
    forall g, h | g in FileSet(made) && h in FileSet(made)
      ensures g.version == h.version || (|g.es| < cap && |h.es| < cap) ==> g == h
    {
      var i := MadeAt(made, chunks, version, cap, g);
      var j := MadeAt(made, chunks, version, cap, h);
    }
  }

  /// A made file by its place: all but the last are full.
  lemma {:induction false} MadeAt(made: seq<File>, chunks: seq<seq<Entry>>, version: nat, cap: nat, g: File) returns (i: nat)
    requires MadeFrom(made, chunks, version) && ChunksOk(chunks, cap) && g in FileSet(made)
    ensures i < |made| && made[i] == g && g.version == version + i && Plain(g.es) && (|g.es| < cap ==> i == |made| - 1)
  {
    hide FileOk, Plain;
    i :| i < |made| && made[i] == g;
  }

  lemma {:induction false} NewId(bits: seq<bool>, next: nat, f0: File, s1: seq<File>, mid: seq<File>, g: File, cap: nat)
    requires Stocked(bits, next, [f0], mid, cap) && FileSet(s1) <= FileSet(mid) && g in FileSet(mid) && g !in FileSet(s1)
    ensures g.id != f0.id && forall f :: f in FileSet(s1) ==> f.id != g.id
  {
    var all := FileSet([f0]) + FileSet(mid);
    assert f0 in FileSet([f0]) && f0 in all && g in all;
    forall f | f in FileSet(s1) ensures f.id != g.id { assert f in all; }
  }

  /// The two levels of a job, as the caller hands them over.
  ghost predicate LevelsReady(cat: Catalogue, level0: BitLevel, level1: BitLevel, cap: nat)
    reads cat, cat.bits, level0, level1
  {
    && level0 != level1 && cat.Valid() && level0.Valid() && level1.Valid()
    && level1.maxSize == 2 * level1.capacity + 1
    && Ready(cat.bits.table, cat.maxVersion, level0.files, level1.files, cap, level1.capacity)
  }

  lemma {:induction false} LevelsParts(cat: Catalogue, level0: BitLevel, level1: BitLevel, cap: nat)
    requires LevelsReady(cat, level0, level1, cap)
    ensures level0 != level1 && cat.Valid() && level0.Valid() && level1.Valid()
    ensures level1.maxSize == 2 * level1.capacity + 1 && |level0.files| == 1 && level0.files == [level0.files[0]]
    ensures Ready(cat.bits.table, cat.maxVersion, level0.files, level1.files, cap, level1.capacity)
    ensures Disjoint(level1.files) && FileOk(level0.files[0]) && AllOk(level1.files)
  {
    ReadyParts(cat.bits.table, cat.maxVersion, level0.files, level1.files, cap, level1.capacity);
  }

  lemma {:induction false} OnlyFile(f: File)
    ensures Without([f], 0) == []
  {
  }

  /// The shortcut: no file overlaps, so the level-0 file gets a new version and changes level.
  method MoveDown(cat: Catalogue, level0: BitLevel, level1: BitLevel, cap: nat, ghost p: nat)
    requires LevelsReady(cat, level0, level1, cap) && |level0.files| == 1 && RunOk(level1.files, level0.files[0], p, p)
    modifies cat, level0, level1
    ensures cat.Valid() && level0.Valid() && level1.Valid()
    ensures JobDone(old(level0.files)[0], old(level1.files), cat.bits.table, cat.maxVersion, level0.files, level1.files, [], cap)
    ensures FileSet(level1.files) == FileSet(old(level1.files)) + {old(level0.files)[0].(version := old(cat.maxVersion))}
  {
    hide *;
    ghost var bits, next, s1 := cat.bits.table, cat.maxVersion, level1.files;
    LevelsParts(cat, level0, level1, cap);
    ReadySize(bits, next, level0.files, s1, cap, level1.capacity);
    var f0 := level0.files[0];
    var version := cat.NextVersion();
    var f1 := f0.(version := version);
    SameFileOk(f0, f1);
    var ok := level1.AddFile(f1);
    ghost var pos: nat :| pos <= |s1| && level1.files == s1[..pos] + [f1] + s1[pos..];
    LevelSorted(level1);
    InsertSet(s1, pos, f1);
    MoveDone(bits, next, s1, f0, p, pos, f1, cap);
    ok := level0.RemoveFile(f0.id);
    OnlyFile(f0);
  }

  lemma {:induction false} SameFileOk(f0: File, f1: File)
    requires FileOk(f0) && f1 == f0.(version := f1.version)
    ensures FileOk(f1)
  {
  }

  lemma {:induction false} MoveDone(bits: seq<bool>, next: nat, s1: seq<File>, f0: File, p: nat, pos: nat, f1: File, cap: nat)
    requires Stocked(bits, next, [f0], s1, cap) && AllOk(s1) && FileOk(f0) && RunOk(s1, f0, p, p) && pos <= |s1|
    requires f1 == f0.(version := next) && CmpSorted(s1[..pos] + [f1] + s1[pos..])
    ensures JobDone(f0, s1, bits, next + 1, [], s1[..pos] + [f1] + s1[pos..], [], cap)
  {
    hide Stocked, AllOk, RunOk, NoDup, MergedValues, AttemptsAre, Contents, LevelTable;
    StockedMove(bits, next, f0, s1, cap, pos);
    MoveOk(s1, f0, p, p, pos, f1);
  }

  lemma {:induction false} ReadySize(bits: seq<bool>, next: nat, s0: seq<File>, s1: seq<File>, cap: nat, full: nat)
    requires Ready(bits, next, s0, s1, cap, full)
    ensures Stocked(bits, next, s0, s1, cap) && |s1| < full && 2 * full <= |bits|
  {
  }

  lemma {:induction false} GreatestExists(s: set<nat>) returns (k: nat)
    requires s != {}
    ensures k in s && forall j :: j in s ==> j <= k
    decreases |s|
  {
    k :| k in s;
    var rest := s - {k};
    if rest != {} {
      var y := GreatestExists(rest);
      assert forall j :: j in s ==> j == k || j in rest;
      k := if k < y then y else k;
    } else {
      assert forall j :: j in s ==> j == k || j in rest;
    }
  }

  /// What the merge of a file and a run delivers.
  lemma {:induction false} MergedParts(f0: File, rel: seq<File>, cap: nat, chunks: seq<seq<Entry>>, att: seq<Entry>)
    requires FilesOk([f0] + rel) && cap >= 1 && MergedOk([f0] + rel, cap, chunks, att)
    ensures var f, h := Contents(f0), LevelTable(rel);
      && ChunksOk(chunks, cap) && chunks != [] && OutIs(FlatChunks(chunks), f, h, MAX_KEY)
      && AttemptsAre(att, f, h, MAX_KEY) && LastEmptyIff(chunks, cap, f, h)
  {
    assert ([f0] + rel)[1..] == rel && ([f0] + rel)[0] == f0;
    hide FilesOk, OutIs, AttemptsAre, LastEmptyIff, Contents, LevelTable, FlatChunks;
  }

  /// What the merge of a run delivers, in terms of the whole level.
  lemma {:induction false} MergeResult(s1: seq<File>, f0: File, p: nat, q: nat, cap: nat, chunks: seq<seq<Entry>>, att: seq<Entry>)
    requires AllOk(s1) && FileOk(f0) && RunOk(s1, f0, p, q) && p <= q <= |s1| && cap >= 1 && |f0.es| <= cap
    requires forall i :: 0 <= i < |s1| ==> |s1[i].es| <= cap
    requires FilesOk([f0] + s1[p..q]) && MergedOk([f0] + s1[p..q], cap, chunks, att)
    ensures ChunksOk(chunks, cap) && |chunks| >= 1 && |FlatChunks(chunks)| <= (q - p + 1) * cap
    ensures OutIs(FlatChunks(chunks), Contents(f0), LevelTable(s1[p..q]), MAX_KEY)
    ensures AttemptsAre(att, Contents(f0), LevelTable(s1), MAX_KEY)
    ensures TableOk(Contents(f0)) && TableOk(LevelTable(s1[p..q]))
    ensures chunks[|chunks|-1] == [] <==> EndsEmpty(Contents(f0), LevelTable(s1[p..q]), cap)
  {
    hide *;
    var rel := s1[p..q];
    var f, h := Contents(f0), LevelTable(rel);
    MergedParts(f0, rel, cap, chunks, att);
    assert forall i :: 0 <= i < |rel| ==> rel[i] == s1[p + i];
    SomeKey(f0);
    RunDisjoint(s1, p, q);
    OutFits(f0, rel, chunks, cap);
    RunAttempts(s1, f0, p, q, att);
    var k := GreatestExists(f.Keys + h.Keys);
    GreatestIs(f, h, k);
    EmptyMeans(chunks, f, h, cap, k);
  }

  lemma {:induction false} GreatestIs(f: Table, g: Table, k: nat)
    requires k in f.Keys + g.Keys && forall j :: j in f.Keys + g.Keys ==> j <= k
    ensures Greatest(f, g, k)
  {
  }

  lemma {:induction false} SomeKey(f: File)
    requires FileOk(f)
    ensures Contents(f).Keys != {}
  {
    TableKeys(f.es, f.es[0].key);
    assert f.es[0].key in Contents(f).Keys;
  }

  lemma {:induction false} RunSet(s1: seq<File>, p: nat, q: nat)
    requires NoDup(s1) && p <= q <= |s1|
    ensures NoDup(s1[p..q]) && FileSet(s1[p..q]) <= FileSet(s1) && |s1[p..q]| == q - p
  {
  }

  lemma {:induction false} LevelSorted(level: BitLevel)
    requires level.Valid()
    ensures CmpSorted(level.files) && |level.files| <= level.maxSize
  {
  }

  lemma {:induction false} RemoveOnly(bits: seq<bool>, next: nat, f: File, s1: seq<File>, cap: nat)
    requires Stocked(bits, next, [f], s1, cap)
    ensures f.id < |bits| && Stocked(bits[f.id := false], next, [], s1, cap) && Without([f], 0) == []
  {
    assert Without([f], 0) == [];
    hide Stocked;
    StockedSwap(bits, next, [f], s1, cap);
    StockedRemove(bits, next, s1, [f], cap, 0);
    StockedSwap(bits[f.id := false], next, s1, [], cap);
  }

  /// Installing the new files and removing the run is the swap the merge is about.
  lemma {:induction false} SwapOk(s1: seq<File>, f0: File, p: nat, q: nat, made: seq<File>,
                                  chunks: seq<seq<Entry>>, files': seq<File>)
    requires p < q <= |s1| && AllOk(s1) && FileOk(f0) && RunOk(s1, f0, p, q) && FreshOk(made, chunks)
    requires OutIs(FlatChunks(chunks), Contents(f0), LevelTable(s1[p..q]), MAX_KEY)
    requires NoDup(files') && CmpSorted(files') && FileSet(made) !! FileSet(s1) && FileSet(s1[p..q]) <= FileSet(s1)
    requires FileSet(files') == FileSet(s1) + FileSet(made) - FileSet(s1[p..q])
    ensures AllOk(files') && MergedValues(Contents(f0), LevelTable(s1), LevelTable(files'))
  {
    assert FileSet(files') == FileSet(s1) - FileSet(s1[p..q]) + FileSet(made);
    assert Swapped(s1, p, q, made, files');
    assert Merged(s1, f0, p, q, made, chunks, files');
    hide *;
    MergeMeaning(s1, f0, p, q, made, chunks, files');
  }

  lemma {:induction false} TableSize(cat: Catalogue)
    requires cat.Valid()
    ensures |cat.bits.table| == cat.bits.nr
  {
  }

  /// What the merge promises the replacement: full builders, few enough, holding the kept values.
  ghost predicate Replacement(s1: seq<File>, f0: File, p: nat, q: nat, chunks: seq<seq<Entry>>, att: seq<Entry>, cap: nat) {
    && p < q <= |s1| && AllOk(s1) && NoDup(s1) && FileOk(f0) && RunOk(s1, f0, p, q)
    && Fillings(chunks, cap) && ChunksOk(chunks, cap) && |chunks| <= q - p + 1
    && OutIs(FlatChunks(chunks), Contents(f0), LevelTable(s1[p..q]), MAX_KEY)
    && AttemptsAre(att, Contents(f0), LevelTable(s1), MAX_KEY)
  }

  /// The merge proper, for a run of at least one file.
  method MergeRun(cat: Catalogue, level0: BitLevel, level1: BitLevel, cap: nat, p: nat, q: nat)
    returns (chunks: seq<seq<Entry>>, att: seq<Entry>)
    requires LevelsReady(cat, level0, level1, cap) && |level0.files| == 1 && cap >= 1
    requires p < q <= |level1.files| && RunOk(level1.files, level0.files[0], p, q)
    ensures |chunks| >= 1
    ensures chunks[|chunks|-1] == [] <==> EndsEmpty(Contents(level0.files[0]), LevelTable(level1.files[p..q]), cap)
    ensures chunks[|chunks|-1] != [] ==> Replacement(level1.files, level0.files[0], p, q, chunks, att, cap)
  {
    var f0, rel := level0.files[0], level1.files[p..q];
    ghost var s1 := level1.files;
    ReadyParts(cat.bits.table, cat.maxVersion, level0.files, s1, cap, level1.capacity);
    hide *;
    MergeInput(s1, f0, p, q);
    chunks, att := KWayMerge([f0] + rel, cap);
    MergeResult(s1, f0, p, q, cap, chunks, att);
    if chunks[|chunks|-1] != [] {
      ReplacementOk(s1, f0, p, q, chunks, att, cap);
    }
  }

  lemma {:induction false} ReplacementOk(s1: seq<File>, f0: File, p: nat, q: nat, chunks: seq<seq<Entry>>, att: seq<Entry>, cap: nat)
    requires p < q <= |s1| && AllOk(s1) && NoDup(s1) && FileOk(f0) && RunOk(s1, f0, p, q) && cap >= 1
    requires ChunksOk(chunks, cap) && |chunks| >= 1 && chunks[|chunks|-1] != [] && |FlatChunks(chunks)| <= (q - p + 1) * cap
    requires OutIs(FlatChunks(chunks), Contents(f0), LevelTable(s1[p..q]), MAX_KEY)
    requires AttemptsAre(att, Contents(f0), LevelTable(s1), MAX_KEY)
    requires TableOk(Contents(f0)) && TableOk(LevelTable(s1[p..q]))
    ensures Replacement(s1, f0, p, q, chunks, att, cap)
  {
    FillingsOk(chunks, cap, Contents(f0), LevelTable(s1[p..q]));
    ChunkCount(chunks, cap, q - p);
    hide AllOk, NoDup, FileOk, RunOk, Fillings, OutIs, FlatChunks, Contents, LevelTable, AttemptsAre, TableOk, ChunksOk;
  }

  lemma {:induction false} ReplacementParts(s1: seq<File>, f0: File, p: nat, q: nat, chunks: seq<seq<Entry>>, att: seq<Entry>, cap: nat)
    requires Replacement(s1, f0, p, q, chunks, att, cap)
    ensures Fillings(chunks, cap) && ChunksOk(chunks, cap) && |chunks| <= q - p + 1 && NoDup(s1)
  {
  }

  /// The completed builders go in, the merged files go out.
  method Replace(cat: Catalogue, level0: BitLevel, level1: BitLevel, cap: nat, p: nat, q: nat,
                 chunks: seq<seq<Entry>>, ghost att: seq<Entry>)
    requires LevelsReady(cat, level0, level1, cap) && |level0.files| == 1 && p < q <= |level1.files|
    requires Replacement(level1.files, level0.files[0], p, q, chunks, att, cap)
    modifies cat, cat.bits, level0, level1
    ensures cat.Valid() && level0.Valid() && level1.Valid()
    ensures JobDone(old(level0.files)[0], old(level1.files), cat.bits.table, cat.maxVersion, level0.files, level1.files, att, cap)
    ensures Relinked(old(level0.files)[0], old(level1.files), p, q, old(cat.maxVersion), level1.files, cap)
  {
    hide *;
    ghost var bits, next, s1 := cat.bits.table, cat.maxVersion, level1.files;
    LevelsParts(cat, level0, level1, cap);
    ReadySize(bits, next, level0.files, s1, cap, level1.capacity);
    LevelSorted(level1);
    ReplacementParts(s1, level0.files[0], p, q, chunks, att, cap);
    var f0, rel := level0.files[0], level1.files[p..q];
    TableSize(cat);
    StockedCount(bits, next, [f0], s1, cap);
    var made := Install(cat, level1, chunks, cap, [f0]);
    TableSize(cat);
    NewFilesOk(cat.bits.table, cat.maxVersion, f0, s1, level1.files, made, chunks, next, cap);
    RemoveOnly(cat.bits.table, cat.maxVersion, f0, level1.files, cap);
    var ok := level0.RemoveFile(f0.id);
    cat.ReleaseFile(f0.id);
    RunSet(s1, p, q);
    Uninstall(cat, level1, rel, cap, []);
    StockedNoDup(cat.bits.table, cat.maxVersion, [], level1.files, cap);
    LevelSorted(level1);
    MadeFresh(made, chunks, next);
    ReplaceDone(s1, f0, p, q, made, chunks, att, cap, cat.bits.table, cat.maxVersion, level1.files);
    RelinkedBy(f0, s1, p, q, next, made, level1.files, cap);
  }

  lemma {:induction false} ReplaceDone(s1: seq<File>, f0: File, p: nat, q: nat, made: seq<File>, chunks: seq<seq<Entry>>,
                                       att: seq<Entry>, cap: nat, bits: seq<bool>, next: nat, s1': seq<File>)
    requires Replacement(s1, f0, p, q, chunks, att, cap) && FreshOk(made, chunks) && Stocked(bits, next, [], s1', cap)
    requires NoDup(s1') && CmpSorted(s1') && FileSet(made) !! FileSet(s1)
    requires FileSet(s1') == FileSet(s1) + FileSet(made) - FileSet(s1[p..q]) && |s1'| == |s1| + |chunks| - (q - p)
    ensures JobDone(f0, s1, bits, next, [], s1', att, cap)
  {
    RunSet(s1, p, q);
    hide AllOk, NoDup, FileOk, RunOk, Fillings, OutIs, FlatChunks, Contents, LevelTable, AttemptsAre, MergedValues;
    hide FreshOk, Stocked, CmpSorted, FileSet;
    SwapOk(s1, f0, p, q, made, chunks, s1');
  }

  lemma {:induction false} MadeFresh(made: seq<File>, chunks: seq<seq<Entry>>, version: nat)
    requires MadeFrom(made, chunks, version)
    ensures FreshOk(made, chunks)
  {
  }

  lemma {:induction false} RelinkedBy(f0: File, s1: seq<File>, p: nat, q: nat, version: nat, made: seq<File>, s1': seq<File>, cap: nat)
    requires p < q <= |s1| && FileSet(made) !! FileSet(s1) && NewFiles(f0, s1, FileSet(made), version, cap)
    requires FileSet(s1[p..q]) <= FileSet(s1) && FileSet(s1') == FileSet(s1) + FileSet(made) - FileSet(s1[p..q])
    ensures Relinked(f0, s1, p, q, version, s1', cap)
  {
    assert FileSet(s1') - FileSet(s1) == FileSet(made);
    assert FileSet(s1) - FileSet(s1') == FileSet(s1[p..q]);
    hide NewFiles, FileSet;
  }

  lemma {:induction false} RelinkedMove(f0: File, s1: seq<File>, p: nat, version: nat, s1': seq<File>, cap: nat)
    requires p <= |s1| && FileSet(s1') == FileSet(s1) + {f0.(version := version)}
    ensures Relinked(f0, s1, p, p, version, s1', cap)
  {
  }

  /// compaction_job_run.  With no overlapping file the level-0 file just moves down; otherwise it is
  /// merged with the run files[p..q].  `ok` is false when the last builder would be empty; the level
  /// and the catalogue are then as before.
  method Run(cat: Catalogue, level0: BitLevel, level1: BitLevel, cap: nat)
    returns (ok: bool, att: seq<Entry>, ghost p: nat, ghost q: nat)
    requires LevelsReady(cat, level0, level1, cap) && |level0.files| == 1 && cap >= 1
    modifies cat, cat.bits, level0, level1
    ensures cat.Valid() && level0.Valid() && level1.Valid() && p <= q <= |old(level1.files)|
    ensures RunOk(old(level1.files), old(level0.files)[0], p, q)
    ensures ok <==> p == q || !EndsEmpty(Contents(old(level0.files)[0]), LevelTable(old(level1.files)[p..q]), cap)
    ensures ok ==> JobDone(old(level0.files)[0], old(level1.files), cat.bits.table, cat.maxVersion, level0.files, level1.files, att, cap)
    ensures ok ==> Relinked(old(level0.files)[0], old(level1.files), p, q, old(cat.maxVersion), level1.files, cap)
    ensures !ok ==> level0.files == old(level0.files) && level1.files == old(level1.files)
    ensures !ok ==> cat.maxVersion == old(cat.maxVersion) && cat.bits.table == old(cat.bits.table)
  {
    hide *;
    LevelsParts(cat, level0, level1, cap);
    var f0 := level0.files[0];
    RangeOk(f0);
    var from, to := level1.FindRelativeFiles(f0.first, f0.last);
    p, q := from, to;
    RelativeRun(level1.files, f0, p, q);
    ok, att := true, [];
    if from == to {
      MoveDown(cat, level0, level1, cap, p);
      RelinkedMove(f0, old(level1.files), p, old(cat.maxVersion), level1.files, cap);
    } else {
      var chunks: seq<seq<Entry>>;
      chunks, att := MergeRun(cat, level0, level1, cap, from, to);
      if chunks[|chunks|-1] == [] {
        return false, [], p, q;
      }
      Replace(cat, level0, level1, cap, from, to, chunks, att);
    }
  }

  lemma {:induction false} RelativeRun(files: seq<File>, f0: File, p: nat, q: nat)
    requires p <= q <= |files|
    requires forall i :: 0 <= i < |files| && files[i].first <= f0.last && f0.first <= files[i].last ==> p <= i < q
    requires p < q ==> forall i :: 0 <= i < p ==> files[i].last < f0.first
    requires p < q ==> forall i :: q <= i < |files| ==> f0.last < files[i].first
    ensures RunOk(files, f0, p, q)
  {
  }

  lemma {:induction false} RangeOk(f: File)
    requires FileOk(f)
    ensures f.first <= f.last
  {
  }
}
