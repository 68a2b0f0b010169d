/** A major compaction as a whole: which files of level 1 take part, what replaces them, and
why the level keeps its order and its meaning (lsm_tree.c:1376-1594, 1637-1657). */
module CompactionJob {
  import opened Common
  import opened Index
  import opened Tables
  import opened Level
  import opened Merge
  import opened Compaction
  import opened Catalogue

  // ---------------------------------------------------------------- the output, chunk by chunk

  ghost predicate ChunksApart(chunks: seq<seq<Entry>>) {
    && (forall i :: 0 <= i < |chunks| ==> Strict(chunks[i]))
    && (forall i, j, d, e :: 0 <= i < j < |chunks| && d in chunks[i] && e in chunks[j] ==> d.key < e.key)
  }

  lemma {:induction false} FlatMembers(chunks: seq<seq<Entry>>, e: Entry)
    ensures e in FlatChunks(chunks) <==> exists i :: 0 <= i < |chunks| && e in chunks[i]
  {
    if chunks != [] {
      var n := |chunks| - 1;
      FlatMembers(chunks[..n], e);
      if e in FlatChunks(chunks[..n]) {
        var i :| 0 <= i < n && e in chunks[..n][i];
        assert e in chunks[i];
      }
      if i :| 0 <= i < |chunks| && e in chunks[i] {
        if i < n { assert e in chunks[..n][i]; }
      }
    }
  }

  lemma {:induction false} ChunksStrict(chunks: seq<seq<Entry>>)
    requires Strict(FlatChunks(chunks))
    ensures ChunksApart(chunks)
  {
    if chunks != [] {
      var n := |chunks| - 1;
      var a, b := FlatChunks(chunks[..n]), chunks[n];
      StrictParts(a, b);
      ChunksStrict(chunks[..n]);
      hide Strict;
      forall i, d, e | 0 <= i < n && d in chunks[i] && e in b ensures d.key < e.key {
        assert d in chunks[..n][i];
        FlatMembers(chunks[..n], d);
        StrictSplit(a, b, d, e);
      }
      ApartAppend(chunks);
    }
  }

  lemma {:induction false} ApartAppend(chunks: seq<seq<Entry>>)
    requires chunks != [] && ChunksApart(chunks[..|chunks|-1]) && Strict(chunks[|chunks|-1])
    requires forall i, d, e :: 0 <= i < |chunks| - 1 && d in chunks[i] && e in chunks[|chunks|-1] ==> d.key < e.key
    ensures ChunksApart(chunks)
  {
    hide Strict;
    var n := |chunks| - 1;
    forall i, j, d, e | 0 <= i < j < |chunks| && d in chunks[i] && e in chunks[j] ensures d.key < e.key {
      if j < n { assert chunks[..n][i] == chunks[i] && chunks[..n][j] == chunks[j]; }
    }
    forall i | 0 <= i < |chunks| ensures Strict(chunks[i]) {
      if i < n { assert chunks[..n][i] == chunks[i]; }
    }
  }

  lemma {:induction false} StrictParts(a: seq<Entry>, b: seq<Entry>)
    requires Strict(a + b)
    ensures Strict(a) && Strict(b)
  {
    forall i, j | 0 <= i < j < |a| ensures a[i].key < a[j].key {
      assert (a + b)[i] == a[i] && (a + b)[j] == a[j];
    }
    forall i, j | 0 <= i < j < |b| ensures b[i].key < b[j].key {
      assert (a + b)[|a| + i] == b[i] && (a + b)[|a| + j] == b[j];
    }
  }

  lemma {:induction false} StrictSplit(a: seq<Entry>, b: seq<Entry>, d: Entry, e: Entry)
    requires Strict(a + b) && d in a && e in b
    ensures d.key < e.key
  {
    var i :| 0 <= i < |a| && a[i] == d;
    var j :| 0 <= j < |b| && b[j] == e;
    assert (a + b)[i] == d && (a + b)[|a| + j] == e;
  }

  /// A strictly increasing sequence of values is a well-shaped file.
  ghost predicate Plain(es: seq<Entry>) {
    Strict(es) && forall e :: e in es ==> e.key < MAX_KEY && !Negative(e.rec)
  }

  lemma {:induction false} PlainShape(es: seq<Entry>)
    requires Plain(es)
    ensures Shape(es)
  {
  }

  lemma {:induction false} PlainCell(es: seq<Entry>, i: nat)
    requires Plain(es) && i < |es|
    ensures es[i].key in TableFrom(es) && TableFrom(es)[es[i].key] == Cell(Some(es[i].rec), false)
  {
    PlainShape(es);
    PrefixCell(es, i + 1, es[i].key);
    ShapePrefix(es, i + 1);
    LastCell(es[..i+1], i);
  }

  // ---------------------------------------------------------------- how many files come out

  /// The keys that keep a value.
  ghost function KeptKeys(f: Table, g: Table): set<nat> {
    set k | k in f.Keys + g.Keys && Kept(f, g, k).Some?
  }

  ghost function KeysOf(es: seq<Entry>): set<nat> {
    set e | e in es :: e.key
  }

  lemma {:induction false} StrictCount(es: seq<Entry>)
    requires Strict(es)
    ensures |KeysOf(es)| == |es|
  {
    if es != [] {
      var n := |es| - 1;
      StrictCount(es[..n]);
      assert es == es[..n] + [es[n]];
      assert KeysOf(es) == KeysOf(es[..n]) + {es[n].key};
      forall i | 0 <= i < n ensures es[..n][i].key != es[n].key {}
      assert es[n].key !in KeysOf(es[..n]);
    }
  }

  lemma {:induction false} OutCount(out: seq<Entry>, f: Table, g: Table)
    requires OutIs(out, f, g, MAX_KEY) && TableOk(f) && TableOk(g)
    ensures |out| == |KeptKeys(f, g)| <= |f.Keys| + |g.Keys|
  {
    StrictCount(out);
    assert forall k :: k in f.Keys + g.Keys ==> k < MAX_KEY;
    hide TableOk, Strict;
    forall k ensures k in KeysOf(out) <==> k in KeptKeys(f, g) {
      if k in KeptKeys(f, g) { assert Entry(k, Kept(f, g, k).value) in out; }
    }
    assert KeysOf(out) == KeptKeys(f, g);
    hide OutIs, Kept;
    SubsetCount(KeptKeys(f, g), f.Keys + g.Keys);
    UnionCount(f.Keys, g.Keys);
  }

  lemma {:induction false} UnionCount(a: set<nat>, b: set<nat>)
    ensures |a + b| <= |a| + |b|
  {
    assert a + b == a + (b - a);
    SubsetCount(b - a, b);
  }

  lemma {:induction false} SubsetCount(a: set<nat>, b: set<nat>)
    requires a <= b
    ensures |a| <= |b|
  {
    if a != {} {
      var x :| x in a;
      SubsetCount(a - {x}, b - {x});
    }
  }

  lemma {:induction false} KeysBound(es: seq<Entry>)
    ensures |TableFrom(es).Keys| <= |es|
  {
    if es != [] {
      KeysBound(es[..|es|-1]);
      var t, k := TableFrom(es[..|es|-1]), es[|es|-1].key;
      assert AddEntry(t, es[|es|-1]).Keys == t.Keys + {k};
    }
  }

  lemma {:induction false} ConcatBound(gs: seq<File>, cap: nat)
    requires forall i :: 0 <= i < |gs| ==> |gs[i].es| <= cap
    ensures |Concat(gs)| <= |gs| * cap
  {
    if gs != [] { ConcatBound(gs[..|gs|-1], cap); }
  }

  lemma {:induction false} MulMono(a: nat, b: nat, c: nat)
    ensures a >= b ==> a * c >= b * c
  {
    if a >= b { assert a * c == b * c + (a - b) * c; }
  }

  /// A merge of one newer file with `n` older ones, none above the capacity, fills at most `n + 1`
  /// files, if the last one is not empty.
  lemma {:induction false} ChunkCount(chunks: seq<seq<Entry>>, cap: nat, n: nat)
    requires cap >= 1 && ChunksOk(chunks, cap) && chunks[|chunks|-1] != [] && |FlatChunks(chunks)| <= (n + 1) * cap
    ensures |chunks| <= n + 1
  {
    var m := |chunks| - 1;
    ChunksLength(chunks[..m], cap);
    assert m * cap < (n + 1) * cap;
    MulMono(m, n + 1, cap);
  }

  // ---------------------------------------------------------------- the files that take part

  /// files[p..q] is what FindRelativeFiles answers for the range of `f0`.
  ghost predicate RunOk(files: seq<File>, f0: File, p: nat, q: nat) {
    && p <= q <= |files|
    && (forall i :: 0 <= i < |files| && files[i].first <= f0.last && f0.first <= files[i].last ==> p <= i < q)
    && (p < q ==> forall i :: 0 <= i < p ==> files[i].last < f0.first)
    && (p < q ==> forall i :: q <= i < |files| ==> f0.last < files[i].first)
  }

  ghost predicate AllOk(files: seq<File>) {
    Disjoint(files) && forall i :: 0 <= i < |files| ==> FileOk(files[i])
  }

  lemma {:induction false} RunDisjoint(files: seq<File>, p: nat, q: nat)
    requires AllOk(files) && p <= q <= |files|
    ensures AllOk(files[p..q])
  {
  }

  lemma {:induction false} RunHas(files: seq<File>, p: nat, q: nat, i: nat, k: nat)
    requires p <= q <= |files| && i < |files| && k in Contents(files[i])
    ensures p <= i < q ==> k in LevelTable(files[p..q])
  {
    LevelKeys(files[p..q], k);
    if p <= i < q { assert files[p..q][i - p] == files[i]; }
  }

  lemma {:induction false} SharedKey(f: File, g: File, k: nat)
    requires FileOk(f) && FileOk(g)
    ensures k in Contents(f) && k in Contents(g) ==> f.first <= g.last && g.first <= f.last
  {
    if k in Contents(f) && k in Contents(g) {
      KeyInRange(f, k);
      KeyInRange(g, k);
    }
  }

  lemma {:induction false} CellAt(files: seq<File>, k: nat, i: nat)
    requires AllOk(files) && i < |files| && k in Contents(files[i])
    ensures k in LevelTable(files) && LevelTable(files)[k] == Contents(files[i])[k]
  {
    hide FileOk, Contents, LevelTable;
    LevelCell(files, k, i);
  }

  lemma {:induction false} FileWith(files: seq<File>, k: nat) returns (i: nat)
    requires k in LevelTable(files)
    ensures i < |files| && k in Contents(files[i])
  {
    LevelKeys(files, k);
    hide *;
    i :| 0 <= i < |files| && k in Contents(files[i]);
  }

  /// A key of the run has the same cell in the whole level.
  lemma {:induction false} InRunCell(files: seq<File>, p: nat, q: nat, k: nat)
    requires AllOk(files) && p <= q <= |files| && k in LevelTable(files[p..q])
    ensures k in LevelTable(files) && LevelTable(files)[k] == LevelTable(files[p..q])[k]
  {
    hide *;
    var rel := files[p..q];
    RunDisjoint(files, p, q);
    var i := FileWith(rel, k);
    assert rel[i] == files[p + i];
    CellAt(rel, k, i);
    CellAt(files, k, p + i);
  }

  /// A key of the level outside the run is in a file outside the run, and not in the newer file.
  lemma {:induction false} OutOfRun(files: seq<File>, f0: File, p: nat, q: nat, k: nat)
    requires AllOk(files) && FileOk(f0) && RunOk(files, f0, p, q)
    requires k in LevelTable(files) && k !in LevelTable(files[p..q])
    ensures k !in Contents(f0) && exists i :: 0 <= i < |files| && !(p <= i < q) && k in Contents(files[i])
  {
    var i := FileWith(files, k);
    assert FileOk(files[i]);
    hide FileOk, AllOk, Contents, LevelTable;
    RunHas(files, p, q, i, k);
    SharedKey(files[i], f0, k);
  }

  /// A key of the newer file can only be in the run; there it has the same cell.
  lemma {:induction false} RunCell(files: seq<File>, f0: File, p: nat, q: nat, k: nat)
    requires AllOk(files) && FileOk(f0) && RunOk(files, f0, p, q)
    ensures k in LevelTable(files[p..q]) ==> k in LevelTable(files) && LevelTable(files)[k] == LevelTable(files[p..q])[k]
    ensures k in LevelTable(files) && k !in LevelTable(files[p..q]) ==>
      k !in Contents(f0) && exists i :: 0 <= i < |files| && !(p <= i < q) && k in Contents(files[i])
  {
    if k in LevelTable(files[p..q]) {
      InRunCell(files, p, q, k);
    } else if k in LevelTable(files) {
      OutOfRun(files, f0, p, q, k);
    }
  }

  /// The releases tried against the run are those of the whole level.
  lemma {:induction false} RunAttempts(files: seq<File>, f0: File, p: nat, q: nat, att: seq<Entry>)
    requires AllOk(files) && FileOk(f0) && RunOk(files, f0, p, q)
    requires AttemptsAre(att, Contents(f0), LevelTable(files[p..q]), MAX_KEY)
    ensures AttemptsAre(att, Contents(f0), LevelTable(files), MAX_KEY)
  {
    var f, g, h := Contents(f0), LevelTable(files), LevelTable(files[p..q]);
    forall k ensures k in f && k in g <==> k in f && k in h {
      RunCell(files, f0, p, q, k);
    }
    forall k ensures k in h ==> k in g && g[k] == h[k] {
      RunCell(files, f0, p, q, k);
    }
    hide RunOk, AllOk, FileOk, LevelTable, Contents;
    SameAttempts(f, g, h, att);
  }

  lemma {:induction false} SameAttempts(f: Table, g: Table, h: Table, att: seq<Entry>)
    requires forall k :: k in f && k in g <==> k in f && k in h
    requires forall k :: k in h ==> k in g && g[k] == h[k]
    requires AttemptsAre(att, f, h, MAX_KEY)
    ensures AttemptsAre(att, f, g, MAX_KEY)
  {
    forall k: nat | k < MAX_KEY && Overwritten(f, g, k) ensures Entry(k, LastRecord(g[k])) in att {
      assert Overwritten(f, h, k);
    }
  }

  /// The tables that take part are sound.
  lemma {:induction false} LevelTableOk(files: seq<File>)
    requires forall i :: 0 <= i < |files| ==> FileOk(files[i])
    ensures TableOk(LevelTable(files))
  {
    if files != [] {
      var n := |files| - 1;
      LevelTableOk(files[..n]);
      TableFromOk(files[n].es);
    }
  }

  /// The newer file in front of its run is a legal input of the merge.
  lemma {:induction false} MergeInput(files: seq<File>, f0: File, p: nat, q: nat)
    requires AllOk(files) && FileOk(f0) && p <= q <= |files|
    requires forall i :: 0 <= i < |files| ==> files[i].version < f0.version && files[i].id != f0.id
    requires forall i, j :: 0 <= i < j < |files| ==> files[i].id != files[j].id
    ensures FilesOk([f0] + files[p..q])
    ensures ([f0] + files[p..q])[0] == f0 && ([f0] + files[p..q])[1..] == files[p..q]
  {
    hide *;
    var fs := [f0] + files[p..q];
    RunAt(files, f0, p, q);
    SoundFiles(files);
    RunDisjoint(files, p, q);
    FilesAre(fs);
  }

  lemma {:induction false} RunAt(files: seq<File>, f0: File, p: nat, q: nat)
    requires p <= q <= |files|
    ensures var fs := [f0] + files[p..q];
      |fs| == q - p + 1 && fs[0] == f0 && fs[1..] == files[p..q] && forall i :: 0 < i < |fs| ==> fs[i] == files[p + i - 1]
  {
    var fs := [f0] + files[p..q];
    assert fs[1..] == files[p..q];
  }

  lemma {:induction false} SoundFiles(files: seq<File>)
    requires AllOk(files)
    ensures forall i :: 0 <= i < |files| ==> FileOk(files[i])
  {
  }

  lemma {:induction false} FilesAre(fs: seq<File>)
    requires |fs| >= 1 && (forall i :: 0 <= i < |fs| ==> FileOk(fs[i]))
    requires forall i :: 0 < i < |fs| ==> fs[i].version < fs[0].version
    requires forall i, j :: 0 <= i < j < |fs| ==> fs[i].id != fs[j].id
    requires Disjoint(fs[1..])
    ensures FilesOk(fs)
  {
  }

  // ---------------------------------------------------------------- the new level

  /// `fresh[i]` holds chunk `i`.
  ghost predicate FreshOk(made: seq<File>, chunks: seq<seq<Entry>>) {
    && |made| == |chunks|
    && forall i :: 0 <= i < |made| ==> FileOk(made[i]) && made[i].es == chunks[i] && Plain(chunks[i])
  }

  /// A key kept by the merge is in a new file with just its value; new files hold nothing else.
  lemma {:induction false} MadeCell(made: seq<File>, chunks: seq<seq<Entry>>, f: Table, g: Table, k: nat)
    requires FreshOk(made, chunks) && OutIs(FlatChunks(chunks), f, g, MAX_KEY)
    ensures k < MAX_KEY && Kept(f, g, k).Some? ==>
      exists i :: 0 <= i < |made| && k in Contents(made[i]) && Contents(made[i])[k] == Cell(Kept(f, g, k), false)
    ensures forall i :: 0 <= i < |made| && k in Contents(made[i]) ==> Kept(f, g, k).Some?
  {
    if k < MAX_KEY && Kept(f, g, k).Some? {
      var e := Entry(k, Kept(f, g, k).value);
      FlatMembers(chunks, e);
      var i :| 0 <= i < |chunks| && e in chunks[i];
      var j :| 0 <= j < |chunks[i]| && chunks[i][j] == e;
      PlainCell(chunks[i], j);
      assert k in Contents(made[i]);
    }
    forall i | 0 <= i < |made| && k in Contents(made[i]) ensures Kept(f, g, k).Some? {
      TableKeys(made[i].es, k);
      var j :| 0 <= j < |made[i].es| && made[i].es[j].key == k;
      FlatMembers(chunks, chunks[i][j]);
    }
  }

  /// Every key of a new file lies within the keys of the newer file and the run.
  lemma {:induction false} MadeRange(files: seq<File>, f0: File, p: nat, q: nat, made: seq<File>, chunks: seq<seq<Entry>>, i: nat, x: nat)
    requires AllOk(files) && FileOk(f0) && RunOk(files, f0, p, q) && p < q && FreshOk(made, chunks) && i < |made|
    requires OutIs(FlatChunks(chunks), Contents(f0), LevelTable(files[p..q]), MAX_KEY)
    requires x < |files| && !(p <= x < q)
    ensures Apart(made[i], files[x])
  {
    var es := made[i].es;
    MadeKey(files, f0, p, q, chunks, i, 0);
    MadeKey(files, f0, p, q, chunks, i, |es| - 1);
    assert files[x].last < files[p].first || files[q-1].last < files[x].first;
    hide OutIs, Contents, LevelTable, FlatChunks, Plain, Shape;
  }

  lemma {:induction false} MadeKey(files: seq<File>, f0: File, p: nat, q: nat, chunks: seq<seq<Entry>>, i: nat, j: nat)
    requires AllOk(files) && FileOk(f0) && p < q <= |files| && i < |chunks| && j < |chunks[i]|
    requires OutIs(FlatChunks(chunks), Contents(f0), LevelTable(files[p..q]), MAX_KEY)
    ensures f0.first <= chunks[i][j].key <= f0.last || files[p].first <= chunks[i][j].key <= files[q-1].last
  {
    var k, rel := chunks[i][j].key, files[p..q];
    FlatMembers(chunks, chunks[i][j]);
    OutKept(FlatChunks(chunks), Contents(f0), LevelTable(rel), chunks[i][j]);
    hide OutIs, FlatChunks, Kept;
    if k in Contents(f0) {
      KeyInRange(f0, k);
    } else {
      LevelKeys(rel, k);
      var m :| 0 <= m < |rel| && k in Contents(rel[m]);
      assert rel[m] == files[p + m];
      KeyInRange(files[p + m], k);
      hide Contents, LevelTable, FileOk;
      assert m > 0 ==> files[p].last < files[p + m].first;
      assert p + m < q - 1 ==> files[p + m].last < files[q-1].first;
    }
  }

  lemma {:induction false} OutKept(out: seq<Entry>, f: Table, g: Table, e: Entry)
    requires OutIs(out, f, g, MAX_KEY) && e in out
    ensures Kept(f, g, e.key).Some? && (e.key in f || e.key in g)
  {
  }

  /// What the level holds afterwards.
  ghost predicate Swapped(files: seq<File>, p: nat, q: nat, made: seq<File>, files': seq<File>)
    requires p <= q <= |files|
  {
    && NoDup(files') && CmpSorted(files')
    && FileSet(files') == FileSet(files) - FileSet(files[p..q]) + FileSet(made)
  }

  lemma {:induction false} InRun(files: seq<File>, p: nat, q: nat, i: nat)
    requires p <= q <= |files| && i < |files|
    ensures p <= i < q ==> files[i] in FileSet(files[p..q])
  {
    if p <= i < q { assert files[p..q][i - p] == files[i]; }
  }

  /// Where a file of the new level comes from.
  lemma {:induction false} Origin(files: seq<File>, p: nat, q: nat, made: seq<File>, files': seq<File>, f: File)
    returns (stays: bool, i: nat)
    requires p <= q <= |files| && Swapped(files, p, q, made, files') && f in files'
    ensures stays ==> i < |files| && !(p <= i < q) && files[i] == f
    ensures !stays ==> i < |made| && made[i] == f
  {
    assert f in FileSet(files');
    stays := f !in FileSet(made);
    if stays {
      i :| 0 <= i < |files| && files[i] == f;
      InRun(files, p, q, i);
    } else {
      i :| 0 <= i < |made| && made[i] == f;
    }
  }

  lemma {:induction false} MadeApart(made: seq<File>, chunks: seq<seq<Entry>>, i: nat, j: nat)
    requires FreshOk(made, chunks) && ChunksApart(chunks) && i < |made| && j < |made| && i != j
    ensures Apart(made[i], made[j])
  {
    var a, b := made[i].es, made[j].es;
    assert a[0] in chunks[i] && a[|a|-1] in chunks[i] && b[0] in chunks[j] && b[|b|-1] in chunks[j];
  }

  lemma {:induction false} OutStrict(out: seq<Entry>, f: Table, g: Table)
    requires OutIs(out, f, g, MAX_KEY)
    ensures Strict(out)
  {
  }

  lemma {:induction false} ApartSwap(f: File, h: File)
    requires Apart(f, h)
    ensures Apart(h, f)
  {
  }

  lemma {:induction false} DisjointApart(files: seq<File>, i: nat, j: nat)
    requires AllOk(files) && i < |files| && j < |files| && i != j
    ensures Apart(files[i], files[j])
  {
  }

  /// A whole merge: the run files[p..q] under `f0` became `made`, which holds `chunks`; the level is now `files'`.
  ghost predicate Merged(files: seq<File>, f0: File, p: nat, q: nat, made: seq<File>, chunks: seq<seq<Entry>>,
                         files': seq<File>) {
    && p < q <= |files| && AllOk(files) && FileOk(f0) && RunOk(files, f0, p, q) && FreshOk(made, chunks)
    && OutIs(FlatChunks(chunks), Contents(f0), LevelTable(files[p..q]), MAX_KEY)
    && Swapped(files, p, q, made, files')
  }

  /// Two different files of the new level have disjoint ranges.
  lemma {:induction false} NewApart(files: seq<File>, f0: File, p: nat, q: nat, made: seq<File>,
                                    chunks: seq<seq<Entry>>, files': seq<File>, f: File, h: File)
    requires Merged(files, f0, p, q, made, chunks, files') && f in files' && h in files' && f != h
    ensures Apart(f, h)
  {
    assert p < q <= |files| && AllOk(files) && FileOk(f0) && RunOk(files, f0, p, q) && FreshOk(made, chunks);
    assert OutIs(FlatChunks(chunks), Contents(f0), LevelTable(files[p..q]), MAX_KEY);
    assert Swapped(files, p, q, made, files');
    hide *;
    var keepF, i := Origin(files, p, q, made, files', f);
    var keepH, j := Origin(files, p, q, made, files', h);
    if keepF && keepH {
      DisjointApart(files, i, j);
    } else if keepF {
      MadeRange(files, f0, p, q, made, chunks, j, i);
      ApartSwap(h, f);
    } else if keepH {
      MadeRange(files, f0, p, q, made, chunks, i, j);
    } else {
      OutStrict(FlatChunks(chunks), Contents(f0), LevelTable(files[p..q]));
      ChunksStrict(chunks);
      MadeApart(made, chunks, i, j);
    }
  }

  /// The new level is sorted, its files are sound and their ranges disjoint.
  lemma {:induction false} NewLevelOk(files: seq<File>, f0: File, p: nat, q: nat, made: seq<File>,
                                      chunks: seq<seq<Entry>>, files': seq<File>)
    requires Merged(files, f0, p, q, made, chunks, files')
    ensures AllOk(files')
  {
    assert p <= q <= |files| && Swapped(files, p, q, made, files') && NoDup(files') && CmpSorted(files');
    assert forall i :: 0 <= i < |files| ==> FileOk(files[i]);
    assert forall i :: 0 <= i < |made| ==> FileOk(made[i]);
    hide Merged, Swapped, CmpSorted;
    forall i | 0 <= i < |files'| ensures FileOk(files'[i]) {
      var keep, a := Origin(files, p, q, made, files', files'[i]);
    }
    forall i, j | 0 <= i < j < |files'| ensures Apart(files'[i], files'[j]) {
      NewApart(files, f0, p, q, made, chunks, files', files'[i], files'[j]);
    }
    hide *;
    SoundLevel(files');
  }

  lemma {:induction false} SoundLevel(files: seq<File>)
    requires CmpSorted(files) && forall i :: 0 <= i < |files| ==> FileOk(files[i])
    requires forall i, j :: 0 <= i < j < |files| ==> Apart(files[i], files[j])
    ensures AllOk(files)
  {
    hide FileOk, CmpSorted, Apart;
    FirstBelowLast(files);
    SortedApart(files);
  }

  lemma {:induction false} FirstBelowLast(files: seq<File>)
    requires forall i :: 0 <= i < |files| ==> FileOk(files[i])
    ensures forall i :: 0 <= i < |files| ==> files[i].first <= files[i].last
  {
    forall i | 0 <= i < |files| ensures files[i].first <= files[i].last { EntryRange(files[i], 0); }
  }

  lemma {:induction false} Unequal(files: seq<File>, i: nat, j: nat)
    requires AllOk(files) && i < |files| && j < |files| && i != j
    ensures files[i] != files[j]
  {
    assert files[i].first <= files[i].last && files[j].first <= files[j].last;
  }

  /// A file outside the run is still there.
  lemma {:induction false} Stays(files: seq<File>, p: nat, q: nat, made: seq<File>, files': seq<File>, i: nat)
    returns (j: nat)
    requires p <= q <= |files| && AllOk(files) && Swapped(files, p, q, made, files') && i < |files| && !(p <= i < q)
    ensures j < |files'| && files'[j] == files[i]
  {
    forall m | 0 <= m < q - p ensures files[p..q][m] != files[i] { Unequal(files, p + m, i); }
    assert files[i] !in FileSet(files[p..q]);
    assert files[i] in FileSet(files');
    hide *;
    j := IndexOf(files', files[i]);
  }

  lemma {:induction false} IndexOf(files: seq<File>, f: File) returns (j: nat)
    requires f in FileSet(files)
    ensures j < |files| && files[j] == f
  {
    j :| 0 <= j < |files| && files[j] == f;
  }

  /// A new file is there.
  lemma {:induction false} Arrives(files: seq<File>, p: nat, q: nat, made: seq<File>, files': seq<File>, i: nat)
    returns (j: nat)
    requires p <= q <= |files| && Swapped(files, p, q, made, files') && i < |made|
    ensures j < |files'| && files'[j] == made[i]
  {
    assert made[i] in FileSet(made);
    assert made[i] in FileSet(files');
    hide *;
    j := IndexOf(files', made[i]);
  }

  /// A key that keeps a value has it in the new level.
  lemma {:induction false} KeptArrives(files: seq<File>, f0: File, p: nat, q: nat, made: seq<File>,
                                       chunks: seq<seq<Entry>>, files': seq<File>, k: nat)
    requires Merged(files, f0, p, q, made, chunks, files') && AllOk(files') && k < MAX_KEY
    requires Kept(Contents(f0), LevelTable(files[p..q]), k).Some?
    ensures Val(LevelTable(files'), k) == Kept(Contents(f0), LevelTable(files[p..q]), k)
  {
    var f, h := Contents(f0), LevelTable(files[p..q]);
    MadeCell(made, chunks, f, h, k);
    hide Contents, LevelTable, OutIs, AllOk, FreshOk, Swapped, FileOk, RunOk;
    var i :| 0 <= i < |made| && k in Contents(made[i]) && Contents(made[i])[k] == Cell(Kept(f, h, k), false);
    var j := Arrives(files, p, q, made, files', i);
    CellAt(files', k, j);
  }

  /// A key of the new level that keeps no value lies outside the run, untouched.
  lemma {:induction false} OtherWasThere(files: seq<File>, f0: File, p: nat, q: nat, made: seq<File>,
                                         chunks: seq<seq<Entry>>, files': seq<File>, k: nat)
    requires Merged(files, f0, p, q, made, chunks, files') && AllOk(files') && k in LevelTable(files')
    requires Kept(Contents(f0), LevelTable(files[p..q]), k).None?
    ensures k in LevelTable(files) && k !in Contents(f0) && LevelTable(files)[k] == LevelTable(files')[k]
  {
    var f, h := Contents(f0), LevelTable(files[p..q]);
    MadeCell(made, chunks, f, h, k);
    assert forall i :: 0 <= i < |files| ==> FileOk(files[i]);
    hide Contents, LevelTable, OutIs, AllOk, FreshOk, Swapped, FileOk;
    var j := FileWith(files', k);
    var keep, i := Origin(files, p, q, made, files', files'[j]);
    assert keep;
    CellAt(files', k, j);
    CellAt(files, k, i);
    SharedKey(files[i], f0, k);
  }

  /// A key of the level outside the run keeps its cell.
  lemma {:induction false} OutsideStays(files: seq<File>, f0: File, p: nat, q: nat, made: seq<File>,
                                        chunks: seq<seq<Entry>>, files': seq<File>, k: nat)
    requires Merged(files, f0, p, q, made, chunks, files') && AllOk(files')
    requires k in LevelTable(files) && k !in LevelTable(files[p..q])
    ensures k in LevelTable(files')
  {
    assert p <= q <= |files| && AllOk(files) && FileOk(f0) && RunOk(files, f0, p, q) && Swapped(files, p, q, made, files');
    hide *;
    OutOfRun(files, f0, p, q, k);
    var i :| 0 <= i < |files| && !(p <= i < q) && k in Contents(files[i]);
    var j := Stays(files, p, q, made, files', i);
    CellAt(files', k, j);
  }

  /// A major compaction keeps the value of every key.
  lemma {:induction false} MergeMeaning(files: seq<File>, f0: File, p: nat, q: nat, made: seq<File>,
                                        chunks: seq<seq<Entry>>, files': seq<File>)
    requires Merged(files, f0, p, q, made, chunks, files')
    ensures AllOk(files') && MergedValues(Contents(f0), LevelTable(files), LevelTable(files'))
  {
    var f, g, h, g' := Contents(f0), LevelTable(files), LevelTable(files[p..q]), LevelTable(files');
    NewLevelOk(files, f0, p, q, made, chunks, files');
    assert AllOk(files) && FileOk(f0) && p <= q <= |files|;
    TableFromOk(f0.es);
    RunDisjoint(files, p, q);
    LevelTableOk(files[p..q]);
    assert forall k :: k in f || k in h ==> k < MAX_KEY;
    hide Contents, LevelTable, OutIs, AllOk, FreshOk, Swapped, FileOk, RunOk, Merged, Shape, TableOk, TableFrom;
    forall k ensures Val(g', k) == if k in f then Val(f, k) else Val(g, k) {
      if k in h { InRunCell(files, p, q, k); }
      if Kept(f, h, k).Some? {
        KeptArrives(files, f0, p, q, made, chunks, files', k);
      } else {
        if k in g' { OtherWasThere(files, f0, p, q, made, chunks, files', k); }
        if k in g && k !in h { OutsideStays(files, f0, p, q, made, chunks, files', k); }
      }
    }
  }

  // ---------------------------------------------------------------- the file-move shortcut

  /// A file apart from every file of the level can simply join it.
  lemma {:induction false} MoveOk(files: seq<File>, f0: File, p: nat, q: nat, pos: nat, f1: File)
    requires AllOk(files) && FileOk(f0) && RunOk(files, f0, p, q) && p == q && pos <= |files|
    requires f1 == f0.(version := f1.version) && CmpSorted(files[..pos] + [f1] + files[pos..])
    ensures AllOk(files[..pos] + [f1] + files[pos..])
    ensures MergedValues(Contents(f0), LevelTable(files), LevelTable(files[..pos] + [f1] + files[pos..]))
    ensures AttemptsAre([], Contents(f0), LevelTable(files), MAX_KEY)
  {
    hide *;
    var r := files[..pos] + [f1] + files[pos..];
    Spliced(files, pos, f1);
    SameContents(f0, f1);
    MoveApart(files, f0, p, q, pos, f1);
    forall k ensures Val(LevelTable(r), k) == if k in Contents(f0) then Val(Contents(f0), k) else Val(LevelTable(files), k)
      ensures !(k in Contents(f0) && k in LevelTable(files))
    {
      MoveKey(files, f0, p, q, pos, f1, r, k);
    }
    NothingOverwritten(Contents(f0), LevelTable(files), LevelTable(r));
  }

  lemma {:induction false} Spliced(files: seq<File>, pos: nat, f1: File)
    requires pos <= |files|
    ensures var r := files[..pos] + [f1] + files[pos..];
      && |r| == |files| + 1 && r[pos] == f1
      && (forall i :: 0 <= i < pos ==> r[i] == files[i])
      && (forall i :: pos <= i < |files| ==> r[i + 1] == files[i])
  {
  }

  lemma {:induction false} SameContents(f0: File, f1: File)
    requires f1 == f0.(version := f1.version)
    ensures Contents(f1) == Contents(f0)
  {
  }

  lemma {:induction false} NothingOverwritten(f: Table, g: Table, g': Table)
    requires forall k :: !(k in f && k in g)
    requires forall k :: Val(g', k) == if k in f then Val(f, k) else Val(g, k)
    ensures AttemptsAre([], f, g, MAX_KEY) && MergedValues(f, g, g')
  {
  }

  lemma {:induction false} MoveKey(files: seq<File>, f0: File, p: nat, q: nat, pos: nat, f1: File, r: seq<File>, k: nat)
    requires AllOk(files) && FileOk(f0) && RunOk(files, f0, p, q) && p == q && pos <= |files|
    requires Contents(f1) == Contents(f0) && AllOk(r) && |r| == |files| + 1
    requires r[pos] == f1
    requires forall i :: 0 <= i < pos ==> r[i] == files[i]
    requires forall i :: pos <= i < |files| ==> r[i + 1] == files[i]
    ensures !(k in Contents(f0) && k in LevelTable(files))
    ensures Val(LevelTable(r), k) == if k in Contents(f0) then Val(Contents(f0), k) else Val(LevelTable(files), k)
  {
    hide *;
    if k in LevelTable(files) {
      var i := FileWith(files, k);
      MoveShared(files, f0, p, q, i, k);
      CellAt(files, k, i);
      var j := if i < pos then i else i + 1;
      assert r[j] == files[i];
      CellAt(r, k, j);
    } else {
      assert r[pos] == f1;
      if k in Contents(f0) { CellAt(r, k, pos); }
      if k in LevelTable(r) {
        var j := FileWith(r, k);
        var i := if j < pos then j else j - 1;
        assert r[j] == if j == pos then f1 else files[i];
        NotElsewhere(files, k, i);
      }
    }
    ValCases(LevelTable(files), LevelTable(r), Contents(f0), k);
  }

  lemma {:induction false} ValCases(g: Table, g': Table, f: Table, k: nat)
    requires k in f ==> k in g' && g'[k] == f[k]
    requires k in g ==> k in g' && g'[k] == g[k]
    requires k in g' ==> k in f || k in g
    requires !(k in f && k in g)
    ensures Val(g', k) == if k in f then Val(f, k) else Val(g, k)
  {
  }

  lemma {:induction false} NotElsewhere(files: seq<File>, k: nat, i: int)
    requires k !in LevelTable(files)
    ensures 0 <= i < |files| ==> k !in Contents(files[i])
  {
    LevelKeys(files, k);
  }

  lemma {:induction false} MoveShared(files: seq<File>, f0: File, p: nat, q: nat, i: nat, k: nat)
    requires AllOk(files) && FileOk(f0) && RunOk(files, f0, p, q) && p == q && i < |files| && k in Contents(files[i])
    ensures k !in Contents(f0)
  {
    SharedKey(files[i], f0, k);
  }

  lemma {:induction false} MoveApart(files: seq<File>, f0: File, p: nat, q: nat, pos: nat, f1: File)
    requires AllOk(files) && FileOk(f0) && RunOk(files, f0, p, q) && p == q && pos <= |files|
    requires f1 == f0.(version := f1.version) && CmpSorted(files[..pos] + [f1] + files[pos..])
    ensures AllOk(files[..pos] + [f1] + files[pos..])
  {
    var r := files[..pos] + [f1] + files[pos..];
    assert forall i :: 0 <= i < |files| ==> Apart(files[i], f1) && Apart(f1, files[i]);
    assert forall i :: 0 <= i < |files| ==> FileOk(files[i]);
    assert FileOk(f1);
    hide FileOk, RunOk, CmpSorted, Apart;
    forall i, j | 0 <= i < j < |r| ensures Apart(r[i], r[j]) {
      InsertApart(files, pos, f1, r, i, j);
    }
    assert forall i :: 0 <= i < |r| ==> FileOk(r[i]);
    hide *;
    SoundLevel(r);
  }

  lemma {:induction false} InsertApart(files: seq<File>, pos: nat, f1: File, r: seq<File>, i: nat, j: nat)
    requires AllOk(files) && pos <= |files| && r == files[..pos] + [f1] + files[pos..] && i < j < |r|
    requires forall m :: 0 <= m < |files| ==> Apart(files[m], f1) && Apart(f1, files[m])
    ensures Apart(r[i], r[j])
  {
    hide AllOk, Apart;
    var a, b := if i < pos then i else i - 1, if j < pos then j else j - 1;
    assert i != pos ==> r[i] == files[a];
    assert j != pos ==> r[j] == files[b];
    if i != pos && j != pos { DisjointApart(files, a, b); }
  }
}
