/** The k-way merge of a major compaction (lsm_tree.c:1376-1581).

One newer file is merged with a run of older files whose key ranges are disjoint.  A heap
holds the next entry of every file; only its root is observable, and an entry reaches the
root on insertion only when its key is strictly smaller than the root's. */
module Merge {
  import opened Common
  import opened Index
  import opened Tables
  import opened Level

  /// An entry popped from the heap: the file it came from and its place there (its address).
  datatype Node = Node(it: nat, idx: nat, entry: Entry)

  /// What the loop remembers about the current key.
  datatype Group = Group(distinct: Node, newer: Option<Record>, older: Option<Record>)

  /// Another record of the current key.
  function Absorb(files: seq<File>, g: Group, first: Node): Group
    requires g.distinct.it < |files| && first.it < |files|
  {
    var df, ff := files[g.distinct.it], files[first.it];
    if df.version < ff.version then Group(first, g.newer, Some(g.distinct.entry.rec))
    else if df.id != ff.id then g.(older := Some(first.entry.rec))
    else if (g.distinct.it, g.distinct.idx) != (first.it, first.idx) then
      Group(first, Some(g.distinct.entry.rec), g.older)
    else g
  }

  /// What closing a key writes to the builder.
  function Emitted(g: Group): seq<Entry> {
    var k := g.distinct.entry.key;
    if !Negative(g.distinct.entry.rec) then [g.distinct.entry]
    else if g.newer.Some? then [Entry(k, g.newer.value)]
    else []
  }

  /// What closing a key tries to release.
  function Attempted(g: Group): seq<Entry> {
    if !Negative(g.distinct.entry.rec) && g.older.Some?
    then [Entry(g.distinct.entry.key, g.older.value)] else []
  }

  // ---------------------------------------------------------------- specification

  /// The value a key keeps: the newer table decides when it has the key.
  function Kept(f: Table, g: Table, k: nat): Option<Record> {
    if k in f then Val(f, k) else Val(g, k)
  }

  ghost predicate Strict(es: seq<Entry>) {
    forall i, j :: 0 <= i < j < |es| ==> es[i].key < es[j].key
  }

  /// `out` lists, in key order and without negatives, the kept values of all keys below `bound`.
  ghost predicate OutIs(out: seq<Entry>, f: Table, g: Table, bound: nat) {
    && Strict(out)
    && (forall e :: e in out ==> e.key < bound && Kept(f, g, e.key) == Some(e.rec))
    && (forall k: nat :: k < bound && Kept(f, g, k).Some? ==> Entry(k, Kept(f, g, k).value) in out)
  }

  /// `att` lists the attempted releases of all keys below `bound`.
  ghost predicate AttemptsAre(att: seq<Entry>, f: Table, g: Table, bound: nat) {
    && (forall a :: a in att ==> a.key < bound && Overwritten(f, g, a.key) && a.rec == LastRecord(g[a.key]))
    && (forall k: nat :: k < bound && Overwritten(f, g, k) ==> Entry(k, LastRecord(g[k])) in att)
  }

  // ---------------------------------------------------------------- prefixes

  /// A prefix that contains every record of a key has the key's whole cell.
  lemma {:induction false} PrefixCell(es: seq<Entry>, n: nat, k: nat)
    requires n <= |es| && forall i :: n <= i < |es| ==> es[i].key != k
    ensures k in TableFrom(es[..n]) <==> k in TableFrom(es)
    ensures k in TableFrom(es) ==> TableFrom(es[..n])[k] == TableFrom(es)[k]
  {
    if n < |es| {
      var m := |es| - 1;
      assert es[..m][..n] == es[..n];
      PrefixCell(es[..m], n, k);
    } else {
      assert es[..n] == es;
    }
  }

  lemma {:induction false} PrefixStep(es: seq<Entry>, n: nat)
    requires n < |es|
    ensures TableFrom(es[..n+1]) == AddEntry(TableFrom(es[..n]), es[n])
  {
    assert es[..n+1][..n] == es[..n];
  }

  /// The cell of a key in a prefix whose last entry has that key.
  lemma {:induction false} PrefixLast(es: seq<Entry>, n: nat)
    requires Shape(es) && 0 < n <= |es|
    ensures var k := es[n-1].key; var t := TableFrom(es[..n]);
      && k in t && LastRecord(t[k]) == es[n-1].rec
      && (n >= 2 && es[n-2].key == k ==> t[k] == Cell(Some(es[n-2].rec), true) && !Negative(es[n-2].rec))
      && (n < 2 || es[n-2].key != k ==> !(t[k].val.Some? && t[k].neg))
  {
    var k := es[n-1].key;
    PrefixStep(es, n - 1);
    TableKeys(es[..n-1], k);
    if n >= 2 && es[n-2].key == k {
      ShapePrefix(es, n - 1);
      LastCell(es[..n-1], n - 2);
    } else {
      forall i | 0 <= i < n - 1 ensures es[i].key != k {
        assert i < n - 2 ==> es[i].key <= es[n-2].key;
      }
      assert forall i :: 0 <= i < n - 1 ==> es[..n-1][i] == es[i];
    }
  }

  // ---------------------------------------------------------------- one key of the merge

  /// The loop's memory of key `k`, after `fi` entries of the newer file and `gi` of the older ones.
  ghost predicate GroupIs(g: Group, tf: Table, tg: Table, k: nat, fi: nat) {
    && g.distinct.entry.key == k
    && (k in tf || k in tg)
    && g.distinct.entry.rec == LastRecord(if k in tf then tf[k] else tg[k])
    && (k in tf <==> g.distinct.it == 0) && (k in tf ==> g.distinct.idx + 1 == fi)
    && g.newer == (var c := if k in tf then tf[k] else tg[k]; if c.val.Some? && c.neg then c.val else None)
    && g.older == (if k in tf && k in tg then Some(LastRecord(tg[k])) else None)
  }

  /// The newer file comes first, is the newest, and every file has its own id.
  ghost predicate FilesOk(files: seq<File>) {
    && |files| >= 1
    && (forall i :: 0 <= i < |files| ==> FileOk(files[i]))
    && (forall i :: 0 < i < |files| ==> files[i].version < files[0].version)
    && (forall i, j :: 0 <= i < j < |files| ==> files[i].id != files[j].id)
    && Disjoint(files[1..])
  }

  /// First record of a key, from either side.
  lemma {:induction false} StartGroup(es: seq<Entry>, n: nat, other: Table, first: Node, newerSide: bool, fi: nat)
    requires Shape(es) && n < |es| && first.entry == es[n] && es[n].key !in TableFrom(es[..n]) && es[n].key !in other
    requires newerSide <==> first.it == 0
    requires newerSide ==> first.idx + 1 == fi
    ensures var t := TableFrom(es[..n+1]);
      GroupIs(Group(first, None, None), if newerSide then t else other, if newerSide then other else t, es[n].key, fi)
  {
    PrefixStep(es, n);
    assert TableFrom(es[..n+1])[es[n].key] == if Negative(es[n].rec) then Cell(None, true) else Cell(Some(es[n].rec), false);
  }

  /// One more record of the key from the newer file.  The older side must not have shown both of its
  /// records of the key before the newer file's first one.
  lemma {:induction false} AbsorbNewer(files: seq<File>, g: Group, fes: seq<Entry>, fi: nat, tg: Table)
    requires FilesOk(files) && files[0].es == fes && fi < |fes| && g.distinct.it < |files|
    requires GroupIs(g, TableFrom(fes[..fi]), tg, fes[fi].key, fi)
    requires fes[fi].key !in TableFrom(fes[..fi]) ==> g.newer.None?
    ensures GroupIs(Absorb(files, g, Node(0, fi, fes[fi])), TableFrom(fes[..fi+1]), tg, fes[fi].key, fi + 1)
  {
    var k := fes[fi].key;
    var tf := TableFrom(fes[..fi]);
    PrefixLast(fes, fi + 1);
    if k in tf {
      TableKeys(fes[..fi], k);
      var i :| 0 <= i < fi && fes[..fi][i].key == k;
      assert fes[i].key == k;
      assert fes[fi-1].key == k;
      PrefixLast(fes, fi);
    } else {
      TableKeys(fes[..fi], k);
      if fi >= 1 { assert fes[..fi][fi-1].key != k; }
    }
  }

  /// One more record of the key from the older files.
  lemma {:induction false} AbsorbOlder(files: seq<File>, g: Group, tf: Table, ge: seq<Entry>, gi: nat, first: Node, fi: nat)
    requires FilesOk(files) && Shape(ge) && gi < |ge| && g.distinct.it < |files| && 0 < first.it < |files|
    requires first.entry == ge[gi]
    requires GroupIs(g, tf, TableFrom(ge[..gi]), ge[gi].key, fi)
    requires ge[gi].key !in tf ==> g.distinct.it == first.it && g.distinct.idx != first.idx
    ensures GroupIs(Absorb(files, g, first), tf, TableFrom(ge[..gi+1]), ge[gi].key, fi)
  {
    var k := ge[gi].key;
    PrefixLast(ge, gi + 1);
    if k !in tf {
      TableKeys(ge[..gi], k);
      var i :| 0 <= i < gi && ge[..gi][i].key == k;
      assert ge[i].key == k;
      assert ge[gi-1].key == k;
      PrefixLast(ge, gi);
    }
  }

  /// Closing a key whose records have all been seen.
  lemma {:induction false} CloseGroup(g: Group, tf: Table, tg: Table, fi: nat, f: Table, gt: Table, out: seq<Entry>, att: seq<Entry>, k: nat)
    requires GroupIs(g, tf, tg, k, fi) && TableOk(f) && TableOk(gt)
    requires k in tf <==> k in f
    requires k in tg <==> k in gt
    requires k in f ==> tf[k] == f[k]
    requires k in gt ==> tg[k] == gt[k]
    requires OutIs(out, f, gt, k) && AttemptsAre(att, f, gt, k)
    ensures OutIs(out + Emitted(g), f, gt, k + 1) && AttemptsAre(att + Attempted(g), f, gt, k + 1)
    ensures Kept(f, gt, k).Some? <==> Emitted(g) != []
  {
    var o := out + Emitted(g);
    assert Emitted(g) == if Kept(f, gt, k).Some? then [Entry(k, Kept(f, gt, k).value)] else [];
    assert Attempted(g) == if Overwritten(f, gt, k) then [Entry(k, LastRecord(gt[k]))] else [];
    forall i | 0 <= i < |out| ensures out[i].key < k { assert out[i] in out; }
  }

  /// No key of either table lies strictly between two neighbouring keys of the merge.
  lemma {:induction false} RaiseBound(out: seq<Entry>, att: seq<Entry>, f: Table, g: Table, a: nat, b: nat)
    requires OutIs(out, f, g, a) && AttemptsAre(att, f, g, a) && a <= b
    requires forall k :: a <= k < b ==> k !in f && k !in g
    ensures OutIs(out, f, g, b) && AttemptsAre(att, f, g, b)
  {
  }

  // ---------------------------------------------------------------- the older files as one stream

  function Concat(gs: seq<File>): seq<Entry> {
    if gs == [] then [] else Concat(gs[..|gs|-1]) + gs[|gs|-1].es
  }

  function Off(gs: seq<File>, w: nat): nat
    requires w <= |gs|
  {
    |Concat(gs[..w])|
  }

  lemma {:induction false} ConcatAt(gs: seq<File>, w: nat, i: nat)
    requires w < |gs| && i < |gs[w].es|
    ensures Off(gs, w) + i < |Concat(gs)| && Concat(gs)[Off(gs, w) + i] == gs[w].es[i]
  {
    var n := |gs| - 1;
    if w < n {
      assert gs[..n][..w] == gs[..w];
      ConcatAt(gs[..n], w, i);
    }
  }

  lemma {:induction false} OffNext(gs: seq<File>, w: nat)
    requires w < |gs|
    ensures Off(gs, w + 1) == Off(gs, w) + |gs[w].es| && Off(gs, |gs|) == |Concat(gs)| && Off(gs, 0) == 0
  {
    assert gs[..w+1][..w] == gs[..w];
    assert gs[..|gs|] == gs;
  }

  lemma {:induction false} EntryRange(f: File, i: nat)
    requires FileOk(f) && i < |f.es|
    ensures f.first <= f.es[i].key <= f.last
  {
  }

  lemma {:induction false} ConcatRange(gs: seq<File>, i: nat)
    requires Disjoint(gs) && (forall j :: 0 <= j < |gs| ==> FileOk(gs[j])) && i < |Concat(gs)|
    ensures gs != [] && gs[0].first <= Concat(gs)[i].key <= gs[|gs|-1].last
  {
    var n := |gs| - 1;
    if i < |Concat(gs[..n])| {
      ConcatRange(gs[..n], i);
      assert gs[n-1].last < gs[n].first;
    } else {
      assert n > 0 ==> gs[0].last < gs[n].first;
    }
  }

  lemma {:induction false} ConcatShape(gs: seq<File>)
    requires Disjoint(gs) && forall i :: 0 <= i < |gs| ==> FileOk(gs[i])
    ensures Shape(Concat(gs))
  {
    if gs != [] {
      var n := |gs| - 1;
      ConcatShape(gs[..n]);
      ConcatBelow(gs);
      hide Shape, Disjoint;
      ShapeConcat(Concat(gs[..n]), gs[n].es);
    }
  }

  /// The last file's keys lie above all earlier ones.
  lemma {:induction false} ConcatBelow(gs: seq<File>)
    requires gs != [] && Disjoint(gs) && forall i :: 0 <= i < |gs| ==> FileOk(gs[i])
    ensures var n := |gs| - 1; var a, b := Concat(gs[..n]), gs[n].es;
      forall i, j :: 0 <= i < |a| && 0 <= j < |b| ==> a[i].key < b[j].key
  {
    hide Shape, Concat;
    var n := |gs| - 1;
    var a, b := Concat(gs[..n]), gs[n].es;
    forall i, j | 0 <= i < |a| && 0 <= j < |b| ensures a[i].key < b[j].key {
      ConcatRange(gs[..n], i);
      EntryRange(gs[n], j);
    }
  }

  lemma {:induction false} ShapeConcat(a: seq<Entry>, b: seq<Entry>)
    requires Shape(a) && Shape(b) && forall i, j :: 0 <= i < |a| && 0 <= j < |b| ==> a[i].key < b[j].key
    ensures Shape(a + b)
  {
  }

  /// Appending entries of new keys only adds their cells.
  lemma {:induction false} TableConcat(a: seq<Entry>, b: seq<Entry>)
    requires forall i, j :: 0 <= i < |a| && 0 <= j < |b| ==> a[i].key != b[j].key
    ensures TableFrom(a + b) == TableFrom(a) + TableFrom(b)
  {
    if b == [] {
      assert a + b == a;
    } else {
      var n := |b| - 1;
      assert (a + b)[..|a| + n] == a + b[..n];
      TableConcat(a, b[..n]);
      TableKeys(a, b[n].key);
      AddUnion(TableFrom(a), TableFrom(b[..n]), b[n]);
    }
  }

  lemma {:induction false} AddUnion(t: Table, u: Table, e: Entry)
    requires e.key !in t
    ensures AddEntry(t + u, e) == t + AddEntry(u, e)
  {
  }

  lemma {:induction false} ConcatTable(gs: seq<File>)
    requires Disjoint(gs) && forall i :: 0 <= i < |gs| ==> FileOk(gs[i])
    ensures TableFrom(Concat(gs)) == LevelTable(gs)
  {
    if gs != [] {
      var n := |gs| - 1;
      var a := Concat(gs[..n]);
      ConcatTable(gs[..n]);
      ConcatBelow(gs);
      TableConcat(a, gs[n].es);
    }
  }
}
