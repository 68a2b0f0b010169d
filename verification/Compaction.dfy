/** The merge loop of a major compaction, proved against the meaning of the merged tables. */
module Compaction {
  import opened Common
  import opened Index
  import opened Tables
  import opened Level
  import opened Merge

  // ---------------------------------------------------------------- the heap and the two streams

  /// The heap holds the next entry of every file that has one left; the root's key is least.
  ghost predicate HeapIs(files: seq<File>, c: seq<nat>, heap: map<nat, Entry>, root: nat) {
    && |c| == |files|
    && (forall it :: 0 <= it < |files| ==> c[it] <= |files[it].es|)
    && (forall it: nat :: it in heap <==> it < |files| && c[it] < |files[it].es|)
    && (forall it :: it in heap ==> heap[it] == files[it].es[c[it]])
    && (heap != map[] ==> IsRoot(heap, root))
  }

  predicate IsRoot(heap: map<nat, Entry>, root: nat) {
    root in heap && forall it :: it in heap ==> heap[root].key <= heap[it].key
  }

  lemma {:induction false} RootExists(heap: map<nat, Entry>) returns (r: nat)
    requires heap != map[]
    ensures IsRoot(heap, r)
    decreases |heap|
  {
    r :| r in heap;
    var rest := heap - {r};
    if rest != map[] {
      var q := RootExists(rest);
      assert forall it :: it in heap ==> it == r || (it in rest && rest[it] == heap[it]);
      if heap[q].key < heap[r].key { r := q; }
    } else {
      assert forall it :: it in heap ==> it == r by {
        forall it | it in heap ensures it == r { assert it != r ==> it in rest; }
      }
    }
  }

  /// The older files are used up one after the other: `w` of them are, `gi` entries in all.
  ghost predicate StreamIs(files: seq<File>, c: seq<nat>, w: nat, gi: nat) {
    && |c| == |files| >= 1 && w <= |files| - 1
    && (forall i :: 1 <= i <= w ==> c[i] == |files[i].es|)
    && (forall i :: w + 2 <= i < |files| ==> c[i] == 0)
    && gi == Off(files[1..], w) + (if w + 1 < |files| then c[w+1] else 0)
    && (w + 1 < |files| ==> c[w+1] < |files[w+1].es|)
  }

  /// The next entry of the older stream is the current one of file `w + 1`.
  lemma {:induction false} StreamHead(files: seq<File>, c: seq<nat>, w: nat, gi: nat)
    requires FilesOk(files) && StreamIs(files, c, w, gi)
    ensures var ge := Concat(files[1..]);
      if w + 1 < |files| then gi < |ge| && ge[gi] == files[w+1].es[c[w+1]] else gi == |ge|
  {
    var gs := files[1..];
    if w + 1 < |files| {
      assert gs[w] == files[w+1];
      ConcatAt(gs, w, c[w+1]);
    } else {
      assert gs[..w] == gs;
    }
  }

  lemma {:induction false} StreamNext(files: seq<File>, c: seq<nat>, w: nat, gi: nat) returns (w': nat)
    requires FilesOk(files) && StreamIs(files, c, w, gi) && w + 1 < |files|
    ensures StreamIs(files, c[w+1 := c[w+1] + 1], w', gi + 1)
  {
    var gs := files[1..];
    assert gs[w] == files[w+1];
    hide FilesOk, FileOk, Concat;
    FirstEntries(files);
    if c[w+1] + 1 == |files[w+1].es| {
      w' := w + 1;
      OffNext(gs, w);
    } else {
      w' := w;
    }
  }

  /// The root is the newer file or the older file in use: later older files hold larger keys.
  lemma {:induction false} RootWhich(files: seq<File>, c: seq<nat>, heap: map<nat, Entry>, root: nat, w: nat, gi: nat)
    requires FilesOk(files) && HeapIs(files, c, heap, root) && StreamIs(files, c, w, gi) && heap != map[]
    ensures root == 0 || (root == w + 1 < |files|)
  {
    if w + 1 < |files| {
      assert w + 1 in heap;
      forall i | w + 1 < i && i in heap ensures heap[w+1].key < heap[i].key {
        LaterLarger(files, w + 1, c[w+1], i, c[i]);
      }
    }
  }

  lemma {:induction false} LaterLarger(files: seq<File>, i: nat, a: nat, j: nat, b: nat)
    requires FilesOk(files) && 1 <= i < j < |files| && a < |files[i].es| && b < |files[j].es|
    ensures files[i].es[a].key < files[j].es[b].key
  {
    EntryRange(files[i], a);
    EntryRange(files[j], b);
    assert files[1..][i-1] == files[i] && files[1..][j-1] == files[j];
  }

  /// Everything popped is at most `k`, everything still waiting at least `k`.
  ghost predicate Frontier(es: seq<Entry>, n: nat, k: nat) {
    && n <= |es|
    && (forall i :: 0 <= i < n ==> es[i].key <= k)
    && (forall i :: n <= i < |es| ==> k <= es[i].key)
  }

  /// The root's key against the heads of the two streams.
  lemma {:induction false} RootLeast(files: seq<File>, c: seq<nat>, heap: map<nat, Entry>, root: nat, w: nat, gi: nat)
    requires FilesOk(files) && HeapIs(files, c, heap, root) && StreamIs(files, c, w, gi) && heap != map[]
    ensures root in heap && (root == 0 || root == w + 1 < |files|)
    ensures c[0] < |files[0].es| ==> heap[root].key <= files[0].es[c[0]].key
    ensures gi < |Concat(files[1..])| ==> heap[root].key <= Concat(files[1..])[gi].key
    ensures root == 0 ==> c[0] < |files[0].es| && heap[root] == files[0].es[c[0]]
    ensures root != 0 ==> gi < |Concat(files[1..])| && heap[root] == Concat(files[1..])[gi]
  {
    RootWhich(files, c, heap, root, w, gi);
    StreamHead(files, c, w, gi);
    hide FilesOk, StreamIs, Concat;
    assert c[0] < |files[0].es| ==> 0 in heap;
    assert w + 1 < |files| ==> w + 1 in heap;
  }

  /// After popping the least key `k'` of both heads, both streams have their frontier there.
  lemma {:induction false} PopFrontier(fes: seq<Entry>, fi: nat, ge: seq<Entry>, gi: nat, k: nat, k': nat, newer: bool)
    requires Shape(fes) && Shape(ge) && Frontier(fes, fi, k) && Frontier(ge, gi, k)
    requires fi < |fes| ==> k' <= fes[fi].key
    requires gi < |ge| ==> k' <= ge[gi].key
    requires if newer then fi < |fes| && fes[fi].key == k' else gi < |ge| && ge[gi].key == k'
    ensures k <= k' && Frontier(fes, fi, k') && Frontier(ge, gi, k')
    ensures newer ==> Frontier(fes, fi + 1, k')
    ensures !newer ==> Frontier(ge, gi + 1, k')
  {
    FrontierMove(fes, fi, k, k');
    FrontierMove(ge, gi, k, k');
  }

  lemma {:induction false} FrontierMove(es: seq<Entry>, n: nat, k: nat, k': nat)
    requires Shape(es) && Frontier(es, n, k)
    requires n < |es| ==> k' <= es[n].key
    ensures k <= k' ==> Frontier(es, n, k')
    ensures n < |es| && es[n].key == k' ==> k <= k' && Frontier(es, n + 1, k')
  {
  }

  // ---------------------------------------------------------------- the two streams

  /// The loop invariant in terms of the newer stream and the older one.
  ghost predicate Merging(fes: seq<Entry>, fi: nat, ge: seq<Entry>, gi: nat, g: Group, out: seq<Entry>, att: seq<Entry>) {
    var k := g.distinct.entry.key;
    && Frontier(fes, fi, k) && Frontier(ge, gi, k)
    && GroupIs(g, TableFrom(fes[..fi]), TableFrom(ge[..gi]), k, fi)
    && OutIs(out, TableFrom(fes), TableFrom(ge), k) && AttemptsAre(att, TableFrom(fes), TableFrom(ge), k)
  }

  lemma {:induction false} AbsentBefore(es: seq<Entry>, n: nat, k: nat, k': nat)
    requires Frontier(es, n, k) && k < k'
    ensures k' !in TableFrom(es[..n])
  {
    TableKeys(es[..n], k');
  }

  lemma {:induction false} AbsentBetween(es: seq<Entry>, n: nat, k: nat, k': nat, j: nat)
    requires Frontier(es, n, k) && Frontier(es, n, k') && k < j < k'
    ensures j !in TableFrom(es)
  {
    TableKeys(es, j);
  }

  /// The group of the key just left is complete, so it can be written out.
  lemma {:induction false} Leave(fes: seq<Entry>, fi: nat, ge: seq<Entry>, gi: nat, g: Group, out: seq<Entry>, att: seq<Entry>, k': nat)
    requires Shape(fes) && Shape(ge) && Merging(fes, fi, ge, gi, g, out, att)
    requires Frontier(fes, fi, k') && Frontier(ge, gi, k') && g.distinct.entry.key < k'
    ensures OutIs(out + Emitted(g), TableFrom(fes), TableFrom(ge), k')
    ensures AttemptsAre(att + Attempted(g), TableFrom(fes), TableFrom(ge), k')
    ensures Emitted(g) == [] <==> Kept(TableFrom(fes), TableFrom(ge), g.distinct.entry.key).None?
  {
    var k := g.distinct.entry.key;
    PrefixCell(fes, fi, k);
    PrefixCell(ge, gi, k);
    TableFromOk(fes);
    TableFromOk(ge);
    forall j | k + 1 <= j < k' ensures j !in TableFrom(fes) && j !in TableFrom(ge) {
      AbsentBetween(fes, fi, k, k', j);
      AbsentBetween(ge, gi, k, k', j);
    }
    hide Shape, Frontier, TableFrom;
    CloseGroup(g, TableFrom(fes[..fi]), TableFrom(ge[..gi]), fi, TableFrom(fes), TableFrom(ge), out, att, k);
    RaiseBound(out + Emitted(g), att + Attempted(g), TableFrom(fes), TableFrom(ge), k + 1, k');
  }

  /// The very first entry.
  lemma {:induction false} Begin(fes: seq<Entry>, ge: seq<Entry>, first: Node, newer: bool)
    requires Shape(fes) && Shape(ge)
    requires if newer then fes != [] && first == Node(0, 0, fes[0]) else ge != [] && first.entry == ge[0] && first.it != 0
    requires fes != [] ==> first.entry.key <= fes[0].key
    requires ge != [] ==> first.entry.key <= ge[0].key
    ensures Merging(fes, if newer then 1 else 0, ge, if newer then 0 else 1, Group(first, None, None), [], [])
  {
    var k := first.entry.key;
    NothingBelow(fes, k);
    NothingBelow(ge, k);
    assert fes[..0] == [] && ge[..0] == [];
    if newer {
      StartGroup(fes, 0, map[], first, true, 1);
    } else {
      StartGroup(ge, 0, map[], first, false, 0);
    }
    hide Shape, GroupIs;
  }

  lemma {:induction false} NothingBelow(es: seq<Entry>, k: nat)
    requires Shape(es) && (es != [] ==> k <= es[0].key)
    ensures forall j: nat | j < k :: j !in TableFrom(es)
    ensures Frontier(es, 0, k)
    ensures es != [] && es[0].key == k ==> Frontier(es, 1, k)
  {
    forall j: nat | j < k ensures j !in TableFrom(es) { TableKeys(es, j); }
  }

  /// An entry with a new key: the old group is written out, a new one begins.
  lemma {:induction false} NewKey(fes: seq<Entry>, fi: nat, ge: seq<Entry>, gi: nat, g: Group, out: seq<Entry>, att: seq<Entry>,
               first: Node, newer: bool)
    requires Shape(fes) && Shape(ge) && Merging(fes, fi, ge, gi, g, out, att)
    requires fi < |fes| ==> first.entry.key <= fes[fi].key
    requires gi < |ge| ==> first.entry.key <= ge[gi].key
    requires if newer then fi < |fes| && first == Node(0, fi, fes[fi]) else gi < |ge| && first.entry == ge[gi] && first.it != 0
    requires first.entry.key != g.distinct.entry.key
    ensures Merging(fes, if newer then fi + 1 else fi, ge, if newer then gi else gi + 1,
                    Group(first, None, None), out + Emitted(g), att + Attempted(g))
  {
    var k, k' := g.distinct.entry.key, first.entry.key;
    PopFrontier(fes, fi, ge, gi, k, k', newer);
    Leave(fes, fi, ge, gi, g, out, att, k');
    AbsentBefore(fes, fi, k, k');
    AbsentBefore(ge, gi, k, k');
    hide Frontier, TableFrom, OutIs, AttemptsAre;
    if newer {
      StartGroup(fes, fi, TableFrom(ge[..gi]), first, true, fi + 1);
    } else {
      StartGroup(ge, gi, TableFrom(fes[..fi]), first, false, fi);
    }
  }

  /// Another entry of the same key.
  lemma {:induction false} SameKey(files: seq<File>, fi: nat, ge: seq<Entry>, gi: nat, g: Group, out: seq<Entry>, att: seq<Entry>,
                first: Node, newer: bool)
    requires FilesOk(files) && Shape(ge) && Merging(files[0].es, fi, ge, gi, g, out, att)
    requires fi < |files[0].es| ==> first.entry.key <= files[0].es[fi].key
    requires gi < |ge| ==> first.entry.key <= ge[gi].key
    requires if newer then fi < |files[0].es| && first == Node(0, fi, files[0].es[fi])
             else gi < |ge| && first.entry == ge[gi] && 0 < first.it < |files|
    requires first.entry.key == g.distinct.entry.key && g.distinct.it < |files|
    requires g.distinct.it != 0 && newer ==> g.newer.None?
    requires g.distinct.it != 0 && !newer ==> g.distinct.it == first.it && g.distinct.idx != first.idx
    ensures Merging(files[0].es, if newer then fi + 1 else fi, ge, if newer then gi else gi + 1,
                    Absorb(files, g, first), out, att)
    ensures Absorb(files, g, first).distinct == first || Absorb(files, g, first).distinct == g.distinct
  {
    var fes, k := files[0].es, g.distinct.entry.key;
    PopFrontier(fes, fi, ge, gi, k, k, newer);
    assert FileOk(files[0]);
    hide Frontier, TableFrom, OutIs, AttemptsAre, Shape;
    if newer {
      AbsorbNewer(files, g, fes, fi, TableFrom(ge[..gi]));
    } else {
      AbsorbOlder(files, g, TableFrom(fes[..fi]), ge, gi, first, fi);
    }
  }

  // ---------------------------------------------------------------- the heap operations

  /// min_heap_pop: whichever least entry remains becomes the root.
  method PopRoot(heap: map<nat, Entry>, root: nat) returns (h: map<nat, Entry>, r: nat)
    requires IsRoot(heap, root)
    ensures h == heap - {root} && (h != map[] ==> IsRoot(h, r))
  {
    h, r := heap - {root}, root;
    if h != map[] {
      ghost var q := RootExists(h);
      r :| IsRoot(h, r);
    }
  }

  /// min_heap_push with a strict comparison: a tie leaves the root where it is.
  method PushEntry(heap: map<nat, Entry>, root: nat, it: nat, e: Entry) returns (h: map<nat, Entry>, r: nat)
    requires heap != map[] ==> IsRoot(heap, root)
    requires it !in heap
    ensures h == heap[it := e] && IsRoot(h, r)
    ensures r == if heap == map[] || e.key < heap[root].key then it else root
  {
    h := heap[it := e];
    r := if heap == map[] || e.key < heap[root].key then it else root;
  }

  // ---------------------------------------------------------------- the merge

  ghost predicate NodeAt(files: seq<File>, c: seq<nat>, n: Node) {
    && |c| == |files| && n.it < |files| && n.idx < c[n.it] <= |files[n.it].es|
    && files[n.it].es[n.idx] == n.entry
  }

  /// When only the older side has shown the current key and the newer file's next entry has it
  /// too, that entry is the root, and the older side has shown one record.
  ghost predicate Ahead(fes: seq<Entry>, fi: nat, root: nat, g: Group) {
    g.distinct.it != 0 && fi < |fes| && fes[fi].key == g.distinct.entry.key ==> root == 0 && g.newer.None?
  }

  /// Two older files never hold the same key.
  lemma {:induction false} SameFile(files: seq<File>, a: Node, b: Node)
    requires FilesOk(files) && 0 < a.it < |files| && 0 < b.it < |files|
    requires a.idx < |files[a.it].es| && files[a.it].es[a.idx] == a.entry
    requires b.idx < |files[b.it].es| && files[b.it].es[b.idx] == b.entry
    requires a.entry.key == b.entry.key
    ensures a.it == b.it
  {
    if a.it < b.it { LaterLarger(files, a.it, a.idx, b.it, b.idx); }
    if b.it < a.it { LaterLarger(files, b.it, b.idx, a.it, a.idx); }
  }

  /// After the first record of a key came from the older side, the newer file's record of the same
  /// key, if it is next, is the root: nothing else in the heap is as small, and ties do not overtake.
  lemma {:induction false} NewerIsNext(heap: map<nat, Entry>, it: nat, h: map<nat, Entry>, r: nat)
    requires it != 0 && it in heap && 0 in heap && heap[0].key == heap[it].key
    requires forall j :: j in heap && j != 0 && j != it ==> heap[it].key < heap[j].key
    requires h == heap - {it} && (h != map[] ==> IsRoot(h, r))
    ensures h != map[] && r == 0 && h[0].key == heap[it].key
  {
    assert 0 in h;
  }

  /// Every other older file waits with a larger key.
  lemma {:induction false} OthersLarger(files: seq<File>, c: seq<nat>, heap: map<nat, Entry>, w: nat, gi: nat)
    requires FilesOk(files) && w + 1 < |files| && StreamIs(files, c, w, gi) && |c| == |files|
    requires forall it: nat :: it in heap ==> it < |files| && c[it] < |files[it].es| && heap[it] == files[it].es[c[it]]
    ensures forall j :: j in heap && j != 0 && j != w + 1 ==> files[w+1].es[c[w+1]].key < heap[j].key
  {
    assert forall j :: 1 <= j <= w ==> j !in heap;
    forall j | j in heap && j > w + 1 ensures files[w+1].es[c[w+1]].key < heap[j].key {
      LaterLarger(files, w + 1, c[w+1], j, c[j]);
    }
  }

  function FlatChunks(chunks: seq<seq<Entry>>): seq<Entry> {
    if chunks == [] then [] else FlatChunks(chunks[..|chunks|-1]) + chunks[|chunks|-1]
  }

  /// The greatest key of the merged files.
  ghost predicate Greatest(f: Table, g: Table, k: nat) {
    (k in f || k in g) && forall j :: j in f || j in g ==> j <= k
  }

  // ---------------------------------------------------------------- one iteration

  ghost predicate LoopInv(files: seq<File>, c: seq<nat>, heap: map<nat, Entry>, root: nat, g: Group,
                          out: seq<Entry>, att: seq<Entry>, w: nat, gi: nat)
    requires FilesOk(files)
  {
    && HeapIs(files, c, heap, root) && StreamIs(files, c, w, gi)
    && if c[0] == 0 && gi == 0
       then out == [] && att == [] && root in heap && g == Group(Node(root, 0, heap[root]), None, None)
       else Merging(files[0].es, c[0], Concat(files[1..]), gi, g, out, att)
            && NodeAt(files, c, g.distinct) && Ahead(files[0].es, c[0], root, g)
  }

  /// The heap after popping the root and pushing that file's next entry, if it has one.
  ghost predicate HeapMoved(files: seq<File>, c: seq<nat>, heap: map<nat, Entry>, root: nat,
                            h: map<nat, Entry>, r: nat, heap': map<nat, Entry>, root': nat)
    requires |c| == |files| && root < |files|
  {
    && root in heap && h == heap - {root} && (h != map[] ==> IsRoot(h, r))
    && var n := c[root] + 1;
       if n < |files[root].es| then
         heap' == h[root := files[root].es[n]] && IsRoot(heap', root')
         && root' == if h == map[] || files[root].es[n].key < h[r].key then root else r
       else heap' == h && root' == r
  }

  lemma {:induction false} HeapNext(files: seq<File>, c: seq<nat>, heap: map<nat, Entry>, root: nat,
                 h: map<nat, Entry>, r: nat, heap': map<nat, Entry>, root': nat)
    requires HeapIs(files, c, heap, root) && root in heap && HeapMoved(files, c, heap, root, h, r, heap', root')
    ensures HeapIs(files, c[root := c[root] + 1], heap', root')
  {
  }

  /// The lookahead invariant after the older side's first record of a key.
  lemma {:induction false} AheadNext(files: seq<File>, c: seq<nat>, heap: map<nat, Entry>, root: nat, w: nat, gi: nat,
                  h: map<nat, Entry>, r: nat, heap': map<nat, Entry>, root': nat)
    requires FilesOk(files) && HeapIs(files, c, heap, root) && StreamIs(files, c, w, gi) && root == w + 1 < |files|
    requires HeapMoved(files, c, heap, root, h, r, heap', root')
    ensures Ahead(files[0].es, c[0], root', Group(Node(root, c[root], heap[root]), None, None))
  {
    if c[0] < |files[0].es| && files[0].es[c[0]].key == heap[root].key {
      OthersLarger(files, c, heap, w, gi);
      assert FileOk(files[root]);
      hide FilesOk, StreamIs;
      NewerIsNext(heap, root, h, r);
    }
  }

  /// The remembered key after the entry `first`: another record of it, or a new key.
  function Advance(files: seq<File>, g: Group, first: Node): Group
    requires g.distinct.it < |files| && first.it < |files|
  {
    if g.distinct.entry.key == first.entry.key then Absorb(files, g, first) else Group(first, None, None)
  }

  /// What the entry `first` makes the loop write ...
  function Wrote(g: Group, first: Node): (r: seq<Entry>)
    ensures |r| <= 1
  {
    if g.distinct.entry.key == first.entry.key then [] else Emitted(g)
  }

  /// ... and release.
  function Tried(g: Group, first: Node): seq<Entry> {
    if g.distinct.entry.key == first.entry.key then [] else Attempted(g)
  }

  /// The merge part of an iteration: the first entry, another entry of the key, or a new key.
  lemma {:induction false} ContentStep(files: seq<File>, fi: nat, ge: seq<Entry>, gi: nat, g: Group, out: seq<Entry>, att: seq<Entry>,
                    first: Node, newer: bool)
    requires FilesOk(files) && Shape(ge) && g.distinct.it < |files| && first.it < |files|
    requires if fi == 0 && gi == 0 then out == [] && att == [] && g == Group(first, None, None)
             else Merging(files[0].es, fi, ge, gi, g, out, att)
    requires fi < |files[0].es| ==> first.entry.key <= files[0].es[fi].key
    requires gi < |ge| ==> first.entry.key <= ge[gi].key
    requires if newer then fi < |files[0].es| && first == Node(0, fi, files[0].es[fi])
             else gi < |ge| && first.entry == ge[gi] && 0 < first.it
    requires fi + gi > 0 && first.entry.key == g.distinct.entry.key && g.distinct.it != 0 ==>
      if newer then g.newer.None? else g.distinct.it == first.it && g.distinct.idx != first.idx
    ensures Merging(files[0].es, if newer then fi + 1 else fi, ge, if newer then gi else gi + 1,
                    Advance(files, g, first), out + Wrote(g, first), att + Tried(g, first))
    ensures Advance(files, g, first).distinct == first || Advance(files, g, first) == g ||
            (g.distinct.entry.key == first.entry.key && Advance(files, g, first).distinct == g.distinct)
  {
    hide *;
    StepIs(files, g, first);
    NewerFile(files);
    assert out + [] == out && att + [] == att;
    if fi == 0 && gi == 0 {
      Begin(files[0].es, ge, first, newer);
    } else if g.distinct.entry.key == first.entry.key {
      SameKey(files, fi, ge, gi, g, out, att, first, newer);
    } else {
      NewKey(files[0].es, fi, ge, gi, g, out, att, first, newer);
    }
  }

  lemma {:induction false} StepIs(files: seq<File>, g: Group, first: Node)
    requires g.distinct.it < |files| && first.it < |files|
    ensures g == Group(first, None, None) ==> Absorb(files, g, first) == g
    ensures g.distinct.entry.key == first.entry.key ==>
      Advance(files, g, first) == Absorb(files, g, first) && Wrote(g, first) == [] && Tried(g, first) == []
    ensures g.distinct.entry.key != first.entry.key ==>
      Advance(files, g, first) == Group(first, None, None) && Wrote(g, first) == Emitted(g) && Tried(g, first) == Attempted(g)
  {
    hide Emitted, Attempted;
  }

  lemma {:induction false} NewerFile(files: seq<File>)
    requires FilesOk(files)
    ensures |files| >= 1 && Shape(files[0].es)
  {
  }

  /// The bookkeeping part: the node remembered and the lookahead.
  lemma {:induction false} NodeStep(files: seq<File>, c: seq<nat>, g: Group, first: Node, root': nat)
    requires FilesOk(files) && |c| == |files| && first.it < |files| && g.distinct.it < |files|
    requires first.idx == c[first.it] < |files[first.it].es| && files[first.it].es[first.idx] == first.entry
    requires NodeAt(files, c, g.distinct) || g == Group(first, None, None)
    requires first.it != 0 ==> Ahead(files[0].es, c[0], first.it, g) || g == Group(first, None, None)
    requires first.it != 0 ==> Ahead(files[0].es, c[0], root', Group(first, None, None))
    ensures var c', g' := c[first.it := c[first.it] + 1], Advance(files, g, first);
      NodeAt(files, c', g'.distinct) && Ahead(files[0].es, c'[0], root', g')
  {
    NodeAdvance(files, c, g.distinct, first);
    AheadAdvance(files, c[0], g, first, root');
    hide NodeAt, Ahead, FilesOk;
  }

  lemma {:induction false} AheadAdvance(files: seq<File>, fi: nat, g: Group, first: Node, root': nat)
    requires FilesOk(files) && first.it < |files| && g.distinct.it < |files|
    requires first.it != 0 ==> Ahead(files[0].es, fi, root', Group(first, None, None))
    requires first.it != 0 ==> Ahead(files[0].es, fi, first.it, g) || g == Group(first, None, None)
    ensures Ahead(files[0].es, if first.it == 0 then fi + 1 else fi, root', Advance(files, g, first))
    ensures g.distinct.entry.key == first.entry.key ==>
      Absorb(files, g, first).distinct == first || Absorb(files, g, first).distinct == g.distinct
  {
    var d := g.distinct.it;
    assert d != 0 ==> files[d].version < files[0].version;
    assert first.it != 0 ==> files[first.it].version < files[0].version;
    assert d != first.it ==> files[d].id != files[first.it].id;
    hide FilesOk;
  }

  lemma {:induction false} NodeAdvance(files: seq<File>, c: seq<nat>, d: Node, first: Node)
    requires |c| == |files| && first.it < |files|
    requires first.idx == c[first.it] < |files[first.it].es| && files[first.it].es[first.idx] == first.entry
    ensures NodeAt(files, c[first.it := c[first.it] + 1], first)
    ensures NodeAt(files, c, d) ==> NodeAt(files, c[first.it := c[first.it] + 1], d)
  {
  }

  /// What the invariant says about the entry at the root.
  lemma {:induction false} StepReady(files: seq<File>, c: seq<nat>, heap: map<nat, Entry>, root: nat, g: Group,
                  out: seq<Entry>, att: seq<Entry>, w: nat, gi: nat)
    requires FilesOk(files) && LoopInv(files, c, heap, root, g, out, att, w, gi) && root in heap
    ensures HeapIs(files, c, heap, root) && StreamIs(files, c, w, gi)
    ensures root < |files| == |c| && c[root] < |files[root].es| && files[root].es[c[root]] == heap[root]
    ensures g.distinct.it < |files|
    ensures var first := Node(root, c[root], heap[root]);
      && (c[0] + gi > 0 ==> NodeAt(files, c, g.distinct) && Ahead(files[0].es, c[0], root, g))
      && (c[0] + gi > 0 ==> Merging(files[0].es, c[0], Concat(files[1..]), gi, g, out, att))
      && (c[0] + gi == 0 ==> out == [] && att == [] && g == Group(first, None, None))
      && (c[0] + gi > 0 && g.distinct.it != 0 && g.distinct.entry.key == first.entry.key ==>
           if root == 0 then g.newer.None? else g.distinct.it == root && g.distinct.idx != first.idx)
  {
    var first := Node(root, c[root], heap[root]);
    if c[0] + gi > 0 && root != 0 && g.distinct.it != 0 && g.distinct.entry.key == first.entry.key {
      SameFile(files, g.distinct, first);
    }
  }

  /// The heap and the streams after an iteration.
  lemma {:induction false} StepShape(files: seq<File>, c: seq<nat>, heap: map<nat, Entry>, root: nat, w: nat, gi: nat,
                  h: map<nat, Entry>, r: nat, heap': map<nat, Entry>, root': nat) returns (w': nat, gi': nat)
    requires FilesOk(files) && HeapIs(files, c, heap, root) && StreamIs(files, c, w, gi)
    requires |c| == |files| && root in heap && root < |files| && HeapMoved(files, c, heap, root, h, r, heap', root')
    ensures HeapIs(files, c[root := c[root] + 1], heap', root')
    ensures StreamIs(files, c[root := c[root] + 1], w', gi')
    ensures gi' == if root == 0 then gi else gi + 1
    ensures root != 0 ==> Ahead(files[0].es, c[0], root', Group(Node(root, c[root], heap[root]), None, None))
  {
    hide HeapIs, StreamIs, HeapMoved, Ahead, FilesOk;
    HeapNext(files, c, heap, root, h, r, heap', root');
    if root == 0 {
      w', gi' := w, gi;
      StreamKeep(files, c, w, gi);
    } else {
      RootWhich(files, c, heap, root, w, gi);
      AheadNext(files, c, heap, root, w, gi, h, r, heap', root');
      w' := StreamNext(files, c, w, gi);
      gi' := gi + 1;
    }
  }

  lemma {:induction false} StreamKeep(files: seq<File>, c: seq<nat>, w: nat, gi: nat)
    requires StreamIs(files, c, w, gi)
    ensures StreamIs(files, c[0 := c[0] + 1], w, gi)
  {
  }

  lemma {:induction false} OlderShape(files: seq<File>)
    requires FilesOk(files)
    ensures |files| >= 1 && Shape(Concat(files[1..]))
  {
    ConcatShape(files[1..]);
  }

  /// The remembered group and the output after an iteration.
  lemma {:induction false} StepContent(files: seq<File>, c: seq<nat>, heap: map<nat, Entry>, root: nat, g: Group,
                    out: seq<Entry>, att: seq<Entry>, w: nat, gi: nat, root': nat)
    requires FilesOk(files) && LoopInv(files, c, heap, root, g, out, att, w, gi) && root in heap
    requires root < |files| && |c| == |files| && g.distinct.it < |files|
    requires root != 0 ==> Ahead(files[0].es, c[0], root', Group(Node(root, c[root], heap[root]), None, None))
    ensures var first, c' := Node(root, c[root], heap[root]), c[root := c[root] + 1];
      && Merging(files[0].es, c'[0], Concat(files[1..]), if root == 0 then gi else gi + 1,
                 Advance(files, g, first), out + Wrote(g, first), att + Tried(g, first))
      && NodeAt(files, c', Advance(files, g, first).distinct)
      && Ahead(files[0].es, c'[0], root', Advance(files, g, first))
  {
    hide *;
    OlderShape(files);
    StepReady(files, c, heap, root, g, out, att, w, gi);
    RootLeast(files, c, heap, root, w, gi);
    var first := Node(root, c[root], heap[root]);
    ContentStep(files, c[0], Concat(files[1..]), gi, g, out, att, first, root == 0);
    NodeStep(files, c, g, first, root');
  }

  /// One iteration keeps the loop invariant.
  lemma {:induction false} Step(files: seq<File>, c: seq<nat>, heap: map<nat, Entry>, root: nat, g: Group,
             out: seq<Entry>, att: seq<Entry>, w: nat, gi: nat,
             h: map<nat, Entry>, r: nat, heap': map<nat, Entry>, root': nat) returns (w': nat, gi': nat)
    requires FilesOk(files) && LoopInv(files, c, heap, root, g, out, att, w, gi)
    requires root in heap && root < |files| && |c| == |files| && g.distinct.it < |files|
    requires HeapMoved(files, c, heap, root, h, r, heap', root')
    ensures var first, c' := Node(root, c[root], heap[root]), c[root := c[root] + 1];
      LoopInv(files, c', heap', root', Advance(files, g, first), out + Wrote(g, first), att + Tried(g, first), w', gi')
    ensures gi' == if root == 0 then gi else gi + 1
  {
    w', gi' := StepShape(files, c, heap, root, w, gi, h, r, heap', root');
    StepContent(files, c, heap, root, g, out, att, w, gi, root');
    hide HeapMoved, HeapIs, StreamIs, Merging, Concat, Shape, Ahead, FilesOk, NodeAt, Advance, Wrote, Tried;
  }

  /// When the heap is empty every entry has been seen; the last group still has to be written out.
  lemma {:induction false} Finish(files: seq<File>, c: seq<nat>, root: nat, g: Group, out: seq<Entry>, att: seq<Entry>, w: nat, gi: nat)
    requires FilesOk(files) && LoopInv(files, c, map[], root, g, out, att, w, gi)
    ensures var f, gt := Contents(files[0]), LevelTable(files[1..]);
      && OutIs(out + Emitted(g), f, gt, MAX_KEY) && AttemptsAre(att + Attempted(g), f, gt, MAX_KEY)
      && Greatest(f, gt, g.distinct.entry.key)
      && (Emitted(g) == [] <==> Kept(f, gt, g.distinct.entry.key).None?)
  {
    var fes, ge := files[0].es, Concat(files[1..]);
    StreamHead(files, c, w, gi);
    AllPopped(files, c, root, w);
    ConcatShape(files[1..]);
    ConcatTable(files[1..]);
    assert FileOk(files[0]) && c[0] == |fes| && gi == |ge|;
    hide FilesOk, HeapIs, StreamIs, Concat;
    AllSeen(fes, ge, g, out, att);
    Leave(fes, |fes|, ge, |ge|, g, out, att, MAX_KEY);
  }

  lemma {:induction false} AllPopped(files: seq<File>, c: seq<nat>, root: nat, w: nat)
    requires HeapIs(files, c, map[], root) && |files| >= 1 && |c| == |files| && w <= |files| - 1
    requires w + 1 < |files| ==> c[w+1] < |files[w+1].es|
    ensures c[0] == |files[0].es| && w + 1 == |files|
  {
    var heap: map<nat, Entry> := map[];
    assert 0 !in heap && w + 1 !in heap;
  }

  lemma {:induction false} AllSeen(fes: seq<Entry>, ge: seq<Entry>, g: Group, out: seq<Entry>, att: seq<Entry>)
    requires Shape(fes) && Shape(ge) && Merging(fes, |fes|, ge, |ge|, g, out, att)
    ensures Greatest(TableFrom(fes), TableFrom(ge), g.distinct.entry.key)
    ensures Frontier(fes, |fes|, MAX_KEY) && Frontier(ge, |ge|, MAX_KEY) && g.distinct.entry.key < MAX_KEY
  {
    var k := g.distinct.entry.key;
    assert fes[..|fes|] == fes && ge[..|ge|] == ge;
    forall j ensures j in TableFrom(fes) || j in TableFrom(ge) ==> j <= k {
      TableKeys(fes, j);
      TableKeys(ge, j);
    }
    TableKeys(fes, k);
    TableKeys(ge, k);
  }

  /// What the merge writes, as a sequence of files in the making.
  ghost predicate ChunksOk(chunks: seq<seq<Entry>>, cap: nat) {
    && chunks != []
    && (forall i :: 0 <= i < |chunks| - 1 ==> |chunks[i]| == cap)
    && |chunks[|chunks|-1]| <= cap
  }

  lemma {:induction false} ChunksLength(done: seq<seq<Entry>>, cap: nat)
    requires forall i :: 0 <= i < |done| ==> |done[i]| == cap
    ensures |FlatChunks(done)| == |done| * cap
  {
    if done != [] { ChunksLength(done[..|done|-1], cap); }
  }

  /// The last builder ends up empty exactly when the emitted count is a multiple of the file
  /// capacity and the greatest key does not survive.
  lemma {:induction false} LastChunk(done: seq<seq<Entry>>, cur: seq<Entry>, e: seq<Entry>, cap: nat)
    requires cap >= 1 && (forall i :: 0 <= i < |done| ==> |done[i]| == cap) && |cur| < cap
    ensures cur + e == [] <==> |FlatChunks(done) + cur + e| % cap == 0 && e == []
  {
    ChunksLength(done, cap);
    var n := |FlatChunks(done)|;
    assert (|done| * cap + |cur|) % cap == |cur| by {
      DivModCap(cap, |done|, |cur|);
    }
  }

  lemma {:induction false} DivModCap(b: nat, s: nat, o: nat)
    requires 1 <= b && o < b
    ensures (s * b + o) % b == o
  {
    var q, m := (s * b + o) / b, (s * b + o) % b;
    assert b * q + m == s * b + o;
    assert b * (q - s) == o - m;
    Gap(b, q - s);
  }

  lemma {:induction false} Gap(b: nat, x: int)
    ensures x >= 1 ==> b * x >= b
    ensures x <= -1 ==> b * x <= 0 - b
  {
  }

  /// The builder's contents after the last key.
  lemma {:induction false} ChunksEnd(done: seq<seq<Entry>>, cur: seq<Entry>, e: seq<Entry>, out: seq<Entry>, cap: nat)
    requires cap >= 1 && (forall i :: 0 <= i < |done| ==> |done[i]| == cap) && |cur| < cap && |e| <= 1
    requires FlatChunks(done) + cur == out
    ensures ChunksOk(done + [cur + e], cap) && FlatChunks(done + [cur + e]) == out + e
    ensures cur + e == [] <==> |out + e| % cap == 0 && e == []
  {
    LastChunk(done, cur, e, cap);
    assert (done + [cur + e])[..|done|] == done;
    assert FlatChunks(done) + (cur + e) == FlatChunks(done) + cur + e;
  }

  /// The completed files are full, the open builder is not, and together they hold `out`.
  ghost predicate Chunking(done: seq<seq<Entry>>, cur: seq<Entry>, out: seq<Entry>, cap: nat) {
    && FlatChunks(done) + cur == out && |cur| < cap
    && forall i :: 0 <= i < |done| ==> |done[i]| == cap
  }

  lemma {:induction false} ChunkingStart(cap: nat)
    requires cap >= 1
    ensures Chunking([], [], [], cap)
  {
  }

  /// A full builder is completed and a new one begun.
  lemma {:induction false} ChunkingStep(done: seq<seq<Entry>>, cur: seq<Entry>, out: seq<Entry>, cap: nat, emit: seq<Entry>)
    requires Chunking(done, cur, out, cap) && |emit| <= 1
    ensures if |cur + emit| >= cap then Chunking(done + [cur + emit], [], out + emit, cap)
            else Chunking(done, cur + emit, out + emit, cap)
  {
    assert FlatChunks(done) + (cur + emit) == out + emit;
    assert (done + [cur + emit])[..|done|] == done;
  }

  /// The last builder is empty exactly when the number of entries is a multiple of the file
  /// capacity and the greatest key keeps no value.
  ghost predicate LastEmptyIff(chunks: seq<seq<Entry>>, cap: nat, f: Table, gt: Table)
    requires chunks != [] && cap >= 1
  {
    forall k :: Greatest(f, gt, k) ==>
      (chunks[|chunks|-1] == [] <==> |FlatChunks(chunks)| % cap == 0 && Kept(f, gt, k).None?)
  }

  /// What the merge loop delivers.
  ghost predicate MergedOk(files: seq<File>, cap: nat, chunks: seq<seq<Entry>>, att: seq<Entry>)
    requires FilesOk(files) && cap >= 1
  {
    var f, gt := Contents(files[0]), LevelTable(files[1..]);
    && ChunksOk(chunks, cap)
    && OutIs(FlatChunks(chunks), f, gt, MAX_KEY)
    && AttemptsAre(att, f, gt, MAX_KEY)
    && LastEmptyIff(chunks, cap, f, gt)
  }

  lemma {:induction false} GreatestUnique(f: Table, gt: Table, a: nat, b: nat)
    requires Greatest(f, gt, a) && Greatest(f, gt, b)
    ensures a == b
  {
  }

  /// The state at the end of the loop, with the last key written out, is what was promised.
  lemma {:induction false} Conclude(files: seq<File>, cap: nat, c: seq<nat>, root: nat, g: Group, out: seq<Entry>, att: seq<Entry>,
                 w: nat, gi: nat, done: seq<seq<Entry>>, cur: seq<Entry>)
    requires FilesOk(files) && cap >= 1 && LoopInv(files, c, map[], root, g, out, att, w, gi) && Chunking(done, cur, out, cap)
    ensures MergedOk(files, cap, done + [cur + Emitted(g)], att + Attempted(g))
  {
    var f, gt, chunks := Contents(files[0]), LevelTable(files[1..]), done + [cur + Emitted(g)];
    Finish(files, c, root, g, out, att, w, gi);
    EmittedShort(g);
    ChunksEnd(done, cur, Emitted(g), out, cap);
    hide LoopInv, FilesOk, OutIs, AttemptsAre, Greatest, Emitted, Attempted, Kept, ChunksOk, FlatChunks, Concat, Chunking;
    hide Contents, LevelTable;
    forall k | Greatest(f, gt, k)
      ensures chunks[|chunks|-1] == [] <==> |FlatChunks(chunks)| % cap == 0 && Kept(f, gt, k).None?
    {
      GreatestUnique(f, gt, k, g.distinct.entry.key);
    }
  }

  lemma {:induction false} EmittedShort(g: Group)
    ensures |Emitted(g)| <= 1
  {
  }

  function Zeros(n: nat): (r: seq<nat>)
    ensures |r| == n && forall i :: 0 <= i < n ==> r[i] == 0
  {
    seq(n, i => 0)
  }

  lemma {:induction false} FirstEntries(files: seq<File>)
    requires FilesOk(files)
    ensures |files| >= 1 && forall i :: 0 <= i < |files| ==> files[i].es != []
  {
    assert forall i :: 0 <= i < |files| ==> FileOk(files[i]);
  }

  /// The heap has the first entries of the first `n` files.
  ghost predicate Firsts(files: seq<File>, n: nat, heap: map<nat, Entry>) {
    && n <= |files|
    && (forall i: nat :: i in heap <==> i < n)
    && (forall i: nat :: i < n && i in heap ==> files[i].es != [] && heap[i] == files[i].es[0])
  }

  lemma {:induction false} FirstsNext(files: seq<File>, n: nat, heap: map<nat, Entry>)
    requires Firsts(files, n, heap) && n < |files| && files[n].es != []
    ensures n !in heap && Firsts(files, n + 1, heap[n := files[n].es[0]])
  {
  }

  /// The heap with every file's first entry.
  method FillHeap(files: seq<File>) returns (heap: map<nat, Entry>, root: nat)
    requires FilesOk(files)
    ensures Firsts(files, |files|, heap) && IsRoot(heap, root)
  {
    hide FilesOk, FileOk, IsRoot;
    FirstEntries(files);
    heap, root := map[], 0;
    for it := 0 to |files|
      invariant Firsts(files, it, heap)
      invariant it > 0 ==> heap != map[]
      invariant heap != map[] ==> IsRoot(heap, root)
    {
      FirstsNext(files, it, heap);
      hide Firsts;
      heap, root := PushEntry(heap, root, it, files[it].es[0]);
    }
  }

  lemma {:induction false} HeapStart(files: seq<File>, heap: map<nat, Entry>, root: nat)
    requires Firsts(files, |files|, heap) && IsRoot(heap, root)
    ensures HeapIs(files, Zeros(|files|), heap, root) && root < |files| && root in heap
  {
  }

  lemma {:induction false} StreamStart(files: seq<File>)
    requires |files| >= 1 && (|files| >= 2 ==> files[1].es != [])
    ensures StreamIs(files, Zeros(|files|), 0, 0)
  {
    assert files[1..][..0] == [];
  }

  lemma {:induction false} LoopStart(files: seq<File>, heap: map<nat, Entry>, root: nat)
    requires FilesOk(files) && Firsts(files, |files|, heap) && IsRoot(heap, root)
    ensures |files| >= 1 && root in heap
    ensures LoopInv(files, Zeros(|files|), heap, root, Group(Node(root, 0, heap[root]), None, None), [], [], 0, 0)
  {
    hide FilesOk, HeapIs, StreamIs, Firsts, IsRoot, Merging, Zeros;
    FirstEntries(files);
    HeapStart(files, heap, root);
    StreamStart(files);
  }

  /// Pops the root and pushes the next entry of its file, if there is one.
  method Refill(files: seq<File>, c: seq<nat>, heap: map<nat, Entry>, root: nat)
    returns (ghost h: map<nat, Entry>, ghost r: nat, heap': map<nat, Entry>, root': nat)
    requires |c| == |files| && root < |files| && IsRoot(heap, root) && root in heap
    ensures HeapMoved(files, c, heap, root, h, r, heap', root')
  {
    heap', root' := PopRoot(heap, root);
    h, r := heap', root';
    hide IsRoot;
    if c[root] + 1 < |files[root].es| {
      heap', root' := PushEntry(heap', root', root, files[root].es[c[root] + 1]);
    }
  }

  /// One iteration: pop the root, push its file's next entry, and absorb or start a key.
  /// `emit` is what goes to the builder, `rel` what is released.
  method MergeOne(files: seq<File>, c: seq<nat>, heap: map<nat, Entry>, root: nat, g: Group,
                  ghost out: seq<Entry>, ghost att: seq<Entry>, ghost w: nat, ghost gi: nat)
    returns (c': seq<nat>, heap': map<nat, Entry>, root': nat, g': Group, emit: seq<Entry>, rel: seq<Entry>,
             ghost w': nat, ghost gi': nat)
    requires FilesOk(files) && LoopInv(files, c, heap, root, g, out, att, w, gi) && heap != map[]
    ensures LoopInv(files, c', heap', root', g', out + emit, att + rel, w', gi')
    ensures |c| == |c'| == |files| && c'[0] + gi' == c[0] + gi + 1 && |emit| <= 1
  {
    LoopReady(files, c, heap, root, g, out, att, w, gi);
    hide *;
    var first := Node(root, c[root], heap[root]);
    ghost var h, r;
    h, r, heap', root' := Refill(files, c, heap, root);
    w', gi' := Step(files, c, heap, root, g, out, att, w, gi, h, r, heap', root');
    c' := c[root := c[root] + 1];
    g', emit, rel := Advance(files, g, first), Wrote(g, first), Tried(g, first);
  }

  lemma {:induction false} LoopReady(files: seq<File>, c: seq<nat>, heap: map<nat, Entry>, root: nat, g: Group,
                  out: seq<Entry>, att: seq<Entry>, w: nat, gi: nat)
    requires FilesOk(files) && LoopInv(files, c, heap, root, g, out, att, w, gi) && heap != map[]
    ensures |c| == |files| && root in heap && IsRoot(heap, root) && root < |files| && c[root] < |files[root].es|
    ensures g.distinct.it < |files|
  {
    hide Merging, StreamIs, Shape, Disjoint;
  }

  /// compaction_job_run, the merge loop.  `chunks` are the contents of the files it completes, in
  /// order; `att` are the (key, old record) pairs whose block it tries to release.
  method KWayMerge(files: seq<File>, cap: nat) returns (chunks: seq<seq<Entry>>, att: seq<Entry>)
    requires FilesOk(files) && cap >= 1
    ensures MergedOk(files, cap, chunks, att)
  {
    hide *;
    var heap, root := FillHeap(files);
    var c: seq<nat> := Zeros(|files|);
    LoopStart(files, heap, root);
    var g := Group(Node(root, 0, heap[root]), None, None);
    var done: seq<seq<Entry>>, cur: seq<Entry> := [], [];
    att := [];
    ghost var w: nat, gi: nat, out: seq<Entry> := 0, 0, [];
    ChunkingStart(cap);
    while heap != map[]
      invariant LoopInv(files, c, heap, root, g, out, att, w, gi) && |c| == |files| > 0
      invariant Chunking(done, cur, out, cap)
      decreases |files[0].es| + |Concat(files[1..])| - c[0] - gi
    {
      var emit: seq<Entry>, rel: seq<Entry>;
      LoopBound(files, c, heap, root, g, out, att, w, gi);
      c, heap, root, g, emit, rel, w, gi := MergeOne(files, c, heap, root, g, out, att, w, gi);
      ChunkingStep(done, cur, out, cap, emit);
      cur, att, out := cur + emit, att + rel, out + emit;
      if |cur| >= cap {
        done, cur := done + [cur], [];
      }
    }
    Conclude(files, cap, c, root, g, out, att, w, gi, done, cur);
    att := att + Attempted(g);
    chunks := done + [cur + Emitted(g)];
  }

  lemma {:induction false} LoopBound(files: seq<File>, c: seq<nat>, heap: map<nat, Entry>, root: nat, g: Group,
                  out: seq<Entry>, att: seq<Entry>, w: nat, gi: nat)
    requires FilesOk(files) && LoopInv(files, c, heap, root, g, out, att, w, gi) && heap != map[]
    ensures |c| == |files| && c[0] + gi < |files[0].es| + |Concat(files[1..])|
  {
    RootLeast(files, c, heap, root, w, gi);
    StreamHead(files, c, w, gi);
  }
}
