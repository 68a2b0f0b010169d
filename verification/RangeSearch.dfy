/** Range search of the index against point search (lsm_tree.c:677-741, 1104-1130, 1813-1885).

A leaf that was just read is scanned to its end and every match overwrites the one before; a cached leaf
gives its first match.  Which of the two happens follows from the leaf boundaries, the leaf caches and the
keys that were looked up before (LeafCache). */
module RangeSearch {
  import opened Common
  import opened Index
  import opened Tables
  import opened Level
  import opened Catalogue
  import opened LeafCache
  import opened LsmTree

  /// The record range search returns for a key, level by level.
  function RangeAnswer(l: Layers, k: nat, first0: bool, first1: bool): Option<Record> {
    if k in l.mem then Some(First(l.mem[k]))
    else if k in TableOf(l.imm) then Some(First(TableOf(l.imm)[k]))
    else if k in TableOf(l.l0) then Some(CellSeen(TableOf(l.l0)[k], first0))
    else if k in l.l1 then Some(CellSeen(l.l1[k], first1))
    else None
  }

  predicate Both(c: Cell) {
    c.val.Some? && c.neg
  }

  /// The newest level that knows the key is a file that holds it as a value and a negative, and the range
  /// search does not see the first of the two.
  predicate Diverges(l: Layers, k: nat, first0: bool, first1: bool) {
    && k !in l.mem && k !in TableOf(l.imm)
    && if k in TableOf(l.l0) then !first0 && Both(TableOf(l.l0)[k]) else k in l.l1 && !first1 && Both(l.l1[k])
  }

  /// Range search and point search agree on a key exactly when it does not diverge.
  lemma {:induction false} RangeIsPoint(l: Layers, k: nat, first0: bool, first1: bool)
    requires LayersShape(l)
    ensures RangeAnswer(l, k, first0, first1) == Lookup(l, k) <==> !Diverges(l, k, first0, first1)
  {
  }

  /// The results for the keys from `lo` up to `hi` of a table that `found0` has not answered yet.
  ghost predicate Took(t: Table, first: nat -> bool, lo: nat, hi: nat, results0: map<nat, Record>, found0: set<nat>,
                       results: map<nat, Record>, found: set<nat>) {
    && (forall k :: k in found <==> k in found0 || (lo <= k < hi && k in t))
    && (forall k :: k in results <==> k in results0 || (k in found && k !in found0))
    && (forall k :: k in results0 && (k in found0 || k !in found) ==> results[k] == results0[k])
    && (forall k :: k in found && k !in found0 ==> k in t && results[k] == CellSeen(t[k], first(k)))
  }

  /// bit_file_range_search, for a file given by its entries; `cs` is the recency list of its leaf cache.
  method FileRange(f: File, start: nat, end: nat, cs0: seq<nat>, results0: map<nat, Record>, found0: set<nat>)
    returns (results: map<nat, Record>, found: set<nat>, cs: seq<nat>)
    requires FileOk(f)
    ensures Took(Contents(f), FirstOf(f, cs0, found0, start), start, end + 1, results0, found0, results, found)
    ensures cs == FileCacheAt(f, cs0, found0, start, end + 1)
  {
    hide *;
    results, found, cs := results0, found0, cs0;
    ghost var first := FirstOf(f, cs0, found0, start);
    KeysInRange(f);
    LeafLen();
    TookStart(f, first, start, end, results, found);
    CacheNothing(f, cs0, found0, start, end);
    if start > f.last || end < f.first { return; }
    var last := if end > f.last then f.last else end;
    var key := start;
    while key <= last
      invariant start <= key && (key == start || key <= last + 1)
      invariant Took(Contents(f), first, start, key, results0, found0, results, found)
      invariant cs == FileCacheAt(f, cs0, found0, start, key)
      decreases last + 1 - key
    {
      if key < f.first {
        TookOn(f, first, start, key, f.first, results0, found0, results, found);
        CacheSkip(f, cs0, found0, start, key, f.first);
        key := f.first;
      }
      FileTakes(f, cs0, found0, start, key);
      TookNext(Contents(f), first, start, key, results0, found0, results, found);
      CacheStep(f, cs0, found0, start, key);
      if key !in found {
        var r := Taken(f.es, LEAF_LEN, cs, key);
        cs := Ask(f.es, LEAF_LEN, MAX_LEAF_NODE_CACHED, cs, key);
        if r.Some? { results, found := results[key := r.value], found + {key}; }
      }
      key := key + 1;
    }
    TookOn(f, first, start, key, end + 1, results0, found0, results, found);
    if key <= end { CacheSkip(f, cs0, found0, start, key, end + 1); }
  }

  lemma {:induction false} LeafLen()
    ensures LEAF_LEN >= 1
  {
  }

  lemma {:induction false} FileTakes(f: File, cs0: seq<nat>, found0: set<nat>, start: nat, key: nat)
    requires FileOk(f)
    ensures Taken(f.es, LEAF_LEN, FileCacheAt(f, cs0, found0, start, key), key) ==
      if key in Contents(f) then Some(CellSeen(Contents(f)[key], FirstOf(f, cs0, found0, start)(key))) else None
  {
    TakenIs(f.es, LEAF_LEN, FileCacheAt(f, cs0, found0, start, key), key);
    FirstOfIs(f, cs0, found0, start, key);
    hide Taken, CellSeen, Shape, TableFrom;
  }

  /// An empty range, or one beside the file, leaves the cache alone.
  lemma {:induction false} CacheNothing(f: File, cs: seq<nat>, found: set<nat>, start: nat, end: nat)
    requires FileOk(f)
    ensures FileCacheAt(f, cs, found, start, start) == cs
    ensures start > end || start > f.last || end < f.first ==> FileCacheAt(f, cs, found, start, end + 1) == cs
  {
    CacheStep(f, cs, found, start, start);
    if start <= end && (start > f.last || end < f.first) { CacheSkip(f, cs, found, start, start, end + 1); }
    hide Ask, Shape;
  }

  lemma {:induction false} KeysInRange(f: File)
    requires FileOk(f)
    ensures f.first <= f.last && forall k :: k in Contents(f) ==> f.first <= k <= f.last
  {
    KeyInOrder(f);
    forall k | k in Contents(f) ensures f.first <= k <= f.last { KeyInRange(f, k); }
  }

  lemma {:induction false} TookStart(f: File, first: nat -> bool, start: nat, end: nat, results: map<nat, Record>, found: set<nat>)
    requires forall k :: k in Contents(f) ==> f.first <= k <= f.last
    ensures Took(Contents(f), first, start, start, results, found, results, found)
    ensures start > f.last || end < f.first ==> Took(Contents(f), first, start, end + 1, results, found, results, found)
  {
    hide Contents;
  }

  /// Moving on over keys the file does not have.
  lemma {:induction false} TookOn(f: File, first: nat -> bool, start: nat, key: nat, upto: nat, results0: map<nat, Record>, found0: set<nat>,
                                  results: map<nat, Record>, found: set<nat>)
    requires Took(Contents(f), first, start, key, results0, found0, results, found)
    requires forall k :: k in Contents(f) && start <= k ==> (k < key <==> k < upto)
    ensures Took(Contents(f), first, start, upto, results0, found0, results, found)
  {
    hide Contents, CellSeen;
  }

  lemma {:induction false} TookNext(t: Table, first: nat -> bool, start: nat, key: nat, results0: map<nat, Record>, found0: set<nat>,
                                    results: map<nat, Record>, found: set<nat>)
    requires start <= key && Took(t, first, start, key, results0, found0, results, found)
    ensures key in found <==> key in found0
    ensures key in found || key !in t ==> Took(t, first, start, key + 1, results0, found0, results, found)
    ensures key !in found && key in t ==>
      Took(t, first, start, key + 1, results0, found0, results[key := CellSeen(t[key], first(key))], found + {key})
  {
    hide CellSeen;
  }

  lemma {:induction false} KeyInOrder(f: File)
    requires FileOk(f)
    ensures f.first <= f.last
  {
  }

  // ---------------------------------------------------------------- level 1

  /// Part of a level's range search: every key below `upto` is answered, and other keys may be.
  ghost predicate Taking(t: Table, first: nat -> bool, start: nat, end: nat, upto: nat,
                         results0: map<nat, Record>, found0: set<nat>, results: map<nat, Record>, found: set<nat>) {
    && (forall k :: k in found ==> k in found0 || (start <= k <= end && k in t))
    && (forall k :: k in found0 || (start <= k < upto && k <= end && k in t) ==> k in found)
    && (forall k :: k in results <==> k in results0 || (k in found && k !in found0))
    && (forall k :: k in results0 && (k in found0 || k !in found) ==> results[k] == results0[k])
    && (forall k :: k in found && k !in found0 ==> k in t && results[k] == CellSeen(t[k], first(k)))
  }

  lemma {:induction false} TakeFile(t: Table, c: Table, first: nat -> bool, start: nat, end: nat, key: nat,
                                    results0: map<nat, Record>, found0: set<nat>, results: map<nat, Record>, found: set<nat>,
                                    results': map<nat, Record>, found': set<nat>)
    requires Taking(t, first, start, end, key, results0, found0, results, found)
    requires Took(c, first, start, end + 1, results, found, results', found')
    requires forall k :: k in c ==> k in t && t[k] == c[k]
    requires key in t ==> key in c
    ensures Taking(t, first, start, end, key + 1, results0, found0, results', found')
  {
    hide CellSeen;
  }

  lemma {:induction false} TakeNothing(t: Table, first: nat -> bool, start: nat, end: nat, key: nat,
                                       results0: map<nat, Record>, found0: set<nat>, results: map<nat, Record>, found: set<nat>)
    requires Taking(t, first, start, end, key, results0, found0, results, found) && (key in found || key !in t)
    ensures Taking(t, first, start, end, key + 1, results0, found0, results, found)
  {
    hide CellSeen;
  }

  lemma {:induction false} TakenAll(t: Table, first: nat -> bool, start: nat, end: nat, upto: nat,
                                    results0: map<nat, Record>, found0: set<nat>, results: map<nat, Record>, found: set<nat>)
    requires Taking(t, first, start, end, upto, results0, found0, results, found) && upto > end
    ensures Took(t, first, start, end + 1, results0, found0, results, found)
  {
    hide CellSeen;
  }

  /// The located file is the only one that can hold the key, and its cells are the level's.
  lemma {:induction false} Located(files: seq<File>, key: nat, f: Option<File>)
    requires Disjoint(files) && forall i :: 0 <= i < |files| ==> FileOk(files[i])
    requires f.Some? ==> f.value in files && f.value.first <= key <= f.value.last
    requires f.None? ==> forall i :: 0 <= i < |files| ==> !(files[i].first <= key <= files[i].last)
    ensures f.None? ==> key !in LevelTable(files)
    ensures f.Some? ==> FileOk(f.value)
    ensures f.Some? ==> forall k :: k in Contents(f.value) ==> k in LevelTable(files) && LevelTable(files)[k] == Contents(f.value)[k]
    ensures f.Some? && key in LevelTable(files) ==> key in Contents(f.value)
  {
    LevelKeys(files, key);
    hide FileOk, Contents, LevelTable;
    forall i | 0 <= i < |files| ensures key in Contents(files[i]) ==> files[i].first <= key <= files[i].last {
      if key in Contents(files[i]) { KeyInRange(files[i], key); }
    }
    if f.Some? {
      var i :| 0 <= i < |files| && files[i] == f.value;
      forall k | k in Contents(f.value) ensures k in LevelTable(files) && LevelTable(files)[k] == Contents(f.value)[k] {
        LevelCell(files, k, i);
      }
    }
  }

  lemma {:induction false} LevelFiles(level: BitLevel)
    requires level.Valid()
    ensures forall i :: 0 <= i < |level.files| ==> FileOk(level.files[i])
  {
  }

  lemma {:induction false} TakingStart(t: Table, first: nat -> bool, start: nat, end: nat,
                                       results0: map<nat, Record>, found0: set<nat>)
    ensures Taking(t, first, start, end, start, results0, found0, results0, found0)
  {
  }

  /// For which keys a level's range search sees the first record.
  function FirstIn(files: seq<File>, cs: Caches, found: set<nat>, from: nat): nat -> bool {
    (k: nat) =>
      var f := FileOf(files, k);
      f.None? || FirstOf(f.value, CacheOf(cs, f.value.id), found, from)(k)
  }

  lemma {:induction false} FirstInIs(files: seq<File>, cs: Caches, found: set<nat>, from: nat, k: nat)
    ensures FirstIn(files, cs, found, from)(k) ==
      (FileOf(files, k).None? || FirstOf(FileOf(files, k).value, CacheOf(cs, FileOf(files, k).value.id), found, from)(k))
  {
    hide FileOf, FirstOf, CacheOf;
  }

  function KeysIn(f: File, start: nat, end: nat): set<nat> {
    set k | k in Contents(f) && start <= k <= end
  }

  /// Caches and found keys after the keys below `upto`: for every key not found yet, the file whose range
  /// has it is searched over the whole range.
  ghost function LevelAsk(files: seq<File>, cs: Caches, found: set<nat>, start: nat, end: nat, upto: nat): (Caches, set<nat>)
    decreases upto
  {
    if upto <= start then (cs, found)
    else
      var (c, s) := LevelAsk(files, cs, found, start, end, upto - 1);
      var f := FileOf(files, upto - 1);
      if upto - 1 in s || f.None? then (c, s)
      else (c[f.value.id := FileCacheAt(f.value, CacheOf(c, f.value.id), s, start, end + 1)], s + KeysIn(f.value, start, end))
  }

  lemma {:induction false} AskStart(files: seq<File>, cs: Caches, found: set<nat>, start: nat, end: nat)
    ensures LevelAsk(files, cs, found, start, end, start) == (cs, found)
    ensures start > end ==> LevelAsk(files, cs, found, start, end, end + 1) == (cs, found)
  {
  }

  lemma {:induction false} AskStep(files: seq<File>, cs: Caches, found: set<nat>, start: nat, end: nat, key: nat)
    requires start <= key
    ensures var (c, s) := LevelAsk(files, cs, found, start, end, key);
      var f := FileOf(files, key);
      LevelAsk(files, cs, found, start, end, key + 1) ==
        if key in s || f.None? then (c, s)
        else (c[f.value.id := FileCacheAt(f.value, CacheOf(c, f.value.id), s, start, end + 1)], s + KeysIn(f.value, start, end))
  {
    hide FileOf, FileCacheAt, CacheOf, KeysIn;
  }

  /// The file was not searched yet: its cache and its keys are as they were.
  ghost predicate Untouched(f: File, cs0: Caches, found0: set<nat>, cs: Caches, found: set<nat>) {
    && CacheOf(cs, f.id) == CacheOf(cs0, f.id)
    && forall k :: f.first <= k <= f.last ==> (k in found <==> k in found0)
  }

  /// The file was searched: all its keys are found.
  ghost predicate Searched(f: File, found: set<nat>, start: nat, end: nat) {
    forall k :: k in Contents(f) && start <= k <= end ==> k in found
  }

  ghost predicate EachFile(files: seq<File>, cs0: Caches, found0: set<nat>, cs: Caches, found: set<nat>, start: nat, end: nat) {
    forall i :: 0 <= i < |files| ==> Untouched(files[i], cs0, found0, cs, found) || Searched(files[i], found, start, end)
  }

  ghost predicate OwnIds(files: seq<File>) {
    forall i, j :: 0 <= i < j < |files| ==> files[i].id != files[j].id
  }

  lemma {:induction false} EachStart(files: seq<File>, cs: Caches, found: set<nat>, start: nat, end: nat)
    ensures EachFile(files, cs, found, cs, found, start, end)
  {
  }

  /// What a located file is: one of the level, and the one whose range has the key.
  lemma {:induction false} FileIs(files: seq<File>, key: nat, f: Option<File>)
    requires Disjoint(files)
    requires f.Some? ==> f.value in files && f.value.first <= key <= f.value.last
    requires f.None? ==> forall i :: 0 <= i < |files| ==> !(files[i].first <= key <= files[i].last)
    ensures FileOf(files, key) == f
  {
    if files != [] && !(files[0].first <= key <= files[0].last) {
      assert forall i :: 0 <= i < |files| - 1 ==> files[1..][i] == files[i+1];
      FileIs(files[1..], key, f);
    }
  }

  /// Searching a file again takes nothing new, and the first time it takes what the level promises.
  lemma {:induction false} TookAs(t: Table, first: nat -> bool, first': nat -> bool, start: nat, upto: nat, results0: map<nat, Record>,
                                  found0: set<nat>, results: map<nat, Record>, found: set<nat>)
    requires Took(t, first, start, upto, results0, found0, results, found)
    requires forall k :: k in found && k !in found0 ==> first(k) == first'(k)
    ensures Took(t, first', start, upto, results0, found0, results, found)
  {
    hide CellSeen;
  }

  lemma {:induction false} SameFirst(files: seq<File>, cs0: Caches, found0: set<nat>, cs: Caches, found: set<nat>, start: nat, end: nat,
                                     f: File, k: nat)
    requires Disjoint(files) && f in files && FileOk(f) && EachFile(files, cs0, found0, cs, found, start, end)
    requires k in Contents(f) && start <= k <= end && k !in found
    ensures FirstOf(f, CacheOf(cs, f.id), found, start)(k) == FirstIn(files, cs0, found0, start)(k)
  {
    KeyInRange(f, k);
    FileIs(files, k, Some(f));
    FirstInIs(files, cs0, found0, start, k);
    assert Untouched(f, cs0, found0, cs, found) || Searched(f, found, start, end);
    hide Contents, FileOk, FileOf, FirstIn, CacheOf, Disjoint, EachFile;
    CacheSame(f, CacheOf(cs, f.id), found, found0, start, k);
    FirstOfIs(f, CacheOf(cs, f.id), found, start, k);
    FirstOfIs(f, CacheOf(cs0, f.id), found0, start, k);
    hide FirstOf, FileCacheAt, SeesFirst;
  }

  /// One file's search leaves the other files as they were.
  lemma {:induction false} EachNext(files: seq<File>, cs0: Caches, found0: set<nat>, cs: Caches, found: set<nat>, start: nat, end: nat,
                                    f: File, c: seq<nat>, found': set<nat>)
    requires Disjoint(files) && OwnIds(files) && f in files && (forall i :: 0 <= i < |files| ==> FileOk(files[i]))
    requires EachFile(files, cs0, found0, cs, found, start, end)
    requires forall k :: k in found' <==> k in found || (start <= k < end + 1 && k in Contents(f))
    ensures EachFile(files, cs0, found0, cs[f.id := c], found', start, end)
  {
    var n :| 0 <= n < |files| && files[n] == f;
    forall i | 0 <= i < |files|
      ensures Untouched(files[i], cs0, found0, cs[f.id := c], found') || Searched(files[i], found', start, end)
    {
      assert Untouched(files[i], cs0, found0, cs, found) || Searched(files[i], found, start, end);
      if i != n {
        assert files[i].id != f.id;
        forall k | k in Contents(f) ensures k < files[i].first || files[i].last < k {
          KeyInRange(f, k);
          assert files[i].last < f.first || f.last < files[i].first;
        }
        hide Contents, FileOk;
      }
    }
  }

  /// bit_level_range_search below level 0.
  method LevelRange(level: BitLevel, start: nat, end: nat, cs0: Caches, results0: map<nat, Record>, found0: set<nat>)
    returns (results: map<nat, Record>, found: set<nat>, cs: Caches)
    requires level.Valid() && Disjoint(level.files) && OwnIds(level.files)
    ensures Took(LevelTable(level.files), FirstIn(level.files, cs0, found0, start), start, end + 1, results0, found0, results, found)
    ensures cs == LevelAsk(level.files, cs0, found0, start, end, end + 1).0
  {
    hide *;
    results, found, cs := results0, found0, cs0;
    ghost var t, first := LevelTable(level.files), FirstIn(level.files, cs0, found0, start);
    LevelFiles(level);
    TakingStart(t, first, start, end, results0, found0);
    AskStart(level.files, cs0, found0, start, end);
    EachStart(level.files, cs0, found0, start, end);
    var key := start;
    while key <= end
      invariant key >= start && (key == start || key <= end + 1)
      invariant Taking(t, first, start, end, key, results0, found0, results, found)
      invariant (cs, found) == LevelAsk(level.files, cs0, found0, start, end, key)
      invariant EachFile(level.files, cs0, found0, cs, found, start, end)
      decreases end + 1 - key
    {
      AskStep(level.files, cs0, found0, start, end, key);
      if key in found {
        TakeNothing(t, first, start, end, key, results0, found0, results, found);
        key := key + 1;
        continue;
      }
      var f := level.LocateFile(key);
      Located(level.files, key, f);
      FileIs(level.files, key, f);
      if f.None? {
        TakeNothing(t, first, start, end, key, results0, found0, results, found);
      } else {
        var r, s, c := FileRange(f.value, start, end, CacheOf(cs, f.value.id), results, found);
        FileTook(level.files, cs0, found0, cs, start, end, f.value, results, found, r, s);
        EachNext(level.files, cs0, found0, cs, found, start, end, f.value, c, s);
        TakeFile(t, Contents(f.value), first, start, end, key, results0, found0, results, found, r, s);
        results, found, cs := r, s, cs[f.value.id := c];
      }
      key := key + 1;
    }
    TakenAll(t, first, start, end, key, results0, found0, results, found);
  }

  /// The search of a located file, seen from the level.
  lemma {:induction false} FileTook(files: seq<File>, cs0: Caches, found0: set<nat>, cs: Caches, start: nat, end: nat, f: File,
                                    results: map<nat, Record>, found: set<nat>, r: map<nat, Record>, s: set<nat>)
    requires Disjoint(files) && f in files && FileOk(f) && EachFile(files, cs0, found0, cs, found, start, end)
    requires Took(Contents(f), FirstOf(f, CacheOf(cs, f.id), found, start), start, end + 1, results, found, r, s)
    ensures Took(Contents(f), FirstIn(files, cs0, found0, start), start, end + 1, results, found, r, s)
    ensures s == found + KeysIn(f, start, end)
    ensures forall k :: k in s <==> k in found || (start <= k < end + 1 && k in Contents(f))
  {
    var first, first' := FirstOf(f, CacheOf(cs, f.id), found, start), FirstIn(files, cs0, found0, start);
    hide FirstOf, FirstIn, CellSeen, Contents, FileOk, EachFile, Disjoint;
    forall k | k in s && k !in found ensures first(k) == first'(k) {
      SameFirst(files, cs0, found0, cs, found, start, end, f, k);
    }
    TookAs(Contents(f), first, first', start, end + 1, results, found, r, s);
  }

  // ---------------------------------------------------------------- the whole tree

  /// The tables in search order.
  function Depths(l: Layers): (ts: seq<Table>)
    ensures |ts| == 4
  {
    [l.mem, TableOf(l.imm), TableOf(l.l0), l.l1]
  }

  /// The answer of the first `d` tables.
  function AnswerOf(ts: seq<Table>, d: nat, k: nat, firsts: seq<nat -> bool>): Option<Record>
    requires d <= |ts| && |firsts| == |ts|
  {
    if d == 0 then None
    else
      var r := AnswerOf(ts, d - 1, k, firsts);
      if r.Some? then r else if k in ts[d-1] then Some(CellSeen(ts[d-1][k], firsts[d-1](k))) else None
  }

  /// The results so far are the answers of the first `d` tables.
  ghost predicate Answers(ts: seq<Table>, d: nat, firsts: seq<nat -> bool>, start: nat, end: nat,
                          results: map<nat, Record>, found: set<nat>)
    requires d <= |ts| && |firsts| == |ts|
  {
    && (forall k :: k in found <==> k in results)
    && (forall k :: k in results <==> start <= k <= end && AnswerOf(ts, d, k, firsts).Some?)
    && (forall k :: k in results ==> Some(results[k]) == AnswerOf(ts, d, k, firsts))
  }

  lemma {:induction false} AnswersNext(ts: seq<Table>, d: nat, firsts: seq<nat -> bool>, start: nat, end: nat,
                                       results: map<nat, Record>, found: set<nat>, results': map<nat, Record>, found': set<nat>)
    requires d < |ts| == |firsts| && Answers(ts, d, firsts, start, end, results, found)
    requires Took(ts[d], firsts[d], start, end + 1, results, found, results', found')
    ensures Answers(ts, d + 1, firsts, start, end, results', found')
  {
    hide CellSeen;
    forall k ensures AnswerOf(ts, d + 1, k, firsts) ==
      (var r := AnswerOf(ts, d, k, firsts);
       if r.Some? then r else if k in ts[d] then Some(CellSeen(ts[d][k], firsts[d](k))) else None) {}
    hide AnswerOf;
  }

  /// When every key of the range is answered, later tables are not asked.
  lemma {:induction false} AnswersFull(ts: seq<Table>, d: nat, e: nat, firsts: seq<nat -> bool>, start: nat, end: nat,
                                       results: map<nat, Record>, found: set<nat>)
    requires d <= e <= |ts| == |firsts| && Answers(ts, d, firsts, start, end, results, found)
    requires start <= end && |results| == end - start + 1
    ensures Answers(ts, e, firsts, start, end, results, found)
    decreases e - d
  {
    if d < e {
      AllKeys(results.Keys, start, end);
      AnswersFull(ts, d, e - 1, firsts, start, end, results, found);
    }
  }

  lemma {:induction false} AllKeys(s: set<nat>, start: nat, end: nat)
    requires start <= end && |s| == end - start + 1 && forall k :: k in s ==> start <= k <= end
    ensures forall k :: start <= k <= end ==> k in s
  {
    var all := Span(start, end - start + 1);
    assert s <= all;
    if s != all {
      var x :| x in all && x !in s;
      Smaller(s, all - {x});
    }
  }

  function Span(start: nat, n: nat): (r: set<nat>)
    ensures |r| == n && forall k: nat :: k in r <==> start <= k < start + n
  {
    if n == 0 then {} else Span(start, n - 1) + {start + n - 1}
  }

  lemma {:induction false} Smaller(a: set<nat>, b: set<nat>)
    requires a <= b
    ensures |a| <= |b|
  {
    if a != {} {
      var x :| x in a;
      Smaller(a - {x}, b - {x});
    }
  }

  /// Memtables give the first record.
  function Always(k: nat): bool {
    true
  }

  /// The keys of one memtable.
  method TableRange(t: Table, start: nat, end: nat, results0: map<nat, Record>, found0: set<nat>)
    returns (results: map<nat, Record>, found: set<nat>)
    ensures Took(t, Always, start, end + 1, results0, found0, results, found)
  {
    results, found := results0, found0;
    var key := start;
    while key <= end
      invariant key >= start && (key == start || key <= end + 1)
      invariant Took(t, Always, start, key, results0, found0, results, found)
      decreases end + 1 - key
    {
      if key !in found && key in t {
        results, found := results[key := First(t[key])], found + {key};
      }
      key := key + 1;
    }
  }

  function Firsts(first0: nat -> bool, first1: nat -> bool): (fs: seq<nat -> bool>)
    ensures |fs| == 4
  {
    [Always, Always, first0, first1]
  }

  /// Every key once, through the tables in search order.
  lemma {:induction false} AnswerIs(l: Layers, k: nat, first0: nat -> bool, first1: nat -> bool)
    ensures AnswerOf(Depths(l), 4, k, Firsts(first0, first1)) == RangeAnswer(l, k, first0(k), first1(k))
  {
    var firsts, ts := Firsts(first0, first1), Depths(l);
    assert AnswerOf(ts, 0, k, firsts) == None;
    assert AnswerOf(ts, 1, k, firsts) == if k in ts[0] then Some(CellSeen(ts[0][k], true)) else None;
    assert AnswerOf(ts, 2, k, firsts) ==
      if k in ts[0] then Some(CellSeen(ts[0][k], true)) else if k in ts[1] then Some(CellSeen(ts[1][k], true)) else None;
  }

  /// The whole range is answered as promised.
  ghost predicate RangeOk(l: Layers, start: nat, end: nat, first0: nat -> bool, first1: nat -> bool, results: map<nat, Record>) {
    && (forall k :: k in results <==> start <= k <= end && RangeAnswer(l, k, first0(k), first1(k)).Some?)
    && (forall k :: k in results ==> Some(results[k]) == RangeAnswer(l, k, first0(k), first1(k)))
  }

  lemma {:induction false} Conclude(l: Layers, d: nat, start: nat, end: nat, first0: nat -> bool, first1: nat -> bool,
                                    results: map<nat, Record>, found: set<nat>)
    requires d <= 4 && Answers(Depths(l), d, Firsts(first0, first1), start, end, results, found) && start <= end
    requires d == 4 || |results| == end - start + 1
    ensures RangeOk(l, start, end, first0, first1, results)
  {
    if d < 4 { AnswersFull(Depths(l), d, 4, Firsts(first0, first1), start, end, results, found); }
    forall k ensures AnswerOf(Depths(l), 4, k, Firsts(first0, first1)) == RangeAnswer(l, k, first0(k), first1(k)) {
      AnswerIs(l, k, first0, first1);
    }
    hide AnswerOf, RangeAnswer, Depths, Firsts;
  }

  lemma {:induction false} AnswersStart(l: Layers, start: nat, end: nat, first0: nat -> bool, first1: nat -> bool)
    ensures Answers(Depths(l), 0, Firsts(first0, first1), start, end, map[], {})
  {
  }

  lemma {:induction false} TookNothing(first: nat -> bool, start: nat, end: nat, results: map<nat, Record>, found: set<nat>)
    ensures Took(map[], first, start, end, results, found, results, found)
  {
  }

  lemma {:induction false} RangeParts(t: LsmTree, first0: nat -> bool, first1: nat -> bool)
    requires t.Valid()
    ensures t.level1.Valid() && Disjoint(t.level1.files) && t.level0.Valid() && |t.level0.files| <= 1
    ensures t.level0.files != [] ==> FileOk(t.level0.files[0])
    ensures var ts := Depths(t.LayersOf());
      && ts[0] == t.memtable.tree && ts[1] == (if t.immutable == null then map[] else t.immutable.tree)
      && ts[2] == (if t.level0.files == [] then map[] else Contents(t.level0.files[0])) && ts[3] == LevelTable(t.level1.files)
    ensures var fs := Firsts(first0, first1); fs[0] == Always && fs[1] == Always && fs[2] == first0 && fs[3] == first1
  {
  }

  /// No two files of the tree share an id.
  lemma {:induction false} RangeIds(t: LsmTree)
    requires t.Valid()
    ensures OwnIds(t.level1.files)
    ensures t.level0.files != [] ==> forall f :: f in t.level1.files ==> f.id != t.level0.files[0].id
  {
    var s0, s1 := t.level0.files, t.level1.files;
    assert Stocked(t.catalogue.bits.table, t.catalogue.maxVersion, s0, s1, t.cap);
    IdsApart(t.catalogue.bits.table, t.catalogue.maxVersion, s0, s1, t.cap);
  }

  lemma {:induction false} IdsApart(bits: seq<bool>, next: nat, s0: seq<File>, s1: seq<File>, cap: nat)
    requires Stocked(bits, next, s0, s1, cap)
    ensures OwnIds(s1)
    ensures s0 != [] ==> forall f :: f in s1 ==> f.id != s0[0].id
  {
    assert s0 != [] ==> s0[0] in FileSet(s0);
    forall f | f in s1 ensures s0 != [] ==> f.id != s0[0].id { assert f in FileSet(s1); }
    forall i, j | 0 <= i < j < |s1| ensures s1[i].id != s1[j].id {
      assert s1[i] in FileSet(s1) && s1[j] in FileSet(s1);
    }
  }

  lemma {:induction false} EmptyRange(l: Layers, start: nat, end: nat, first0: nat -> bool, first1: nat -> bool)
    requires start > end
    ensures RangeOk(l, start, end, first0, first1, map[])
  {
  }

  // ---------------------------------------------------------------- leaf caches and the whole tree

  /// The keys of the range that the memtables answer.
  function InMemory(l: Layers, start: nat, end: nat): set<nat> {
    set k: nat | start <= k <= end && (k in l.mem || k in TableOf(l.imm))
  }

  /// The keys of the range that are answered before level 1 is asked.
  function AboveLevel1(l: Layers, start: nat, end: nat): set<nat> {
    set k: nat | start <= k <= end && (k in l.mem || k in TableOf(l.imm) || k in TableOf(l.l0))
  }

  /// For which keys the search of level 0 sees the first record.
  function Sees0(l: Layers, s0: seq<File>, cs: Caches, start: nat, end: nat): nat -> bool {
    if s0 == [] then Always else FirstOf(s0[0], CacheOf(cs, s0[0].id), InMemory(l, start, end), start)
  }

  /// The same for level 1.
  function Sees1(l: Layers, s1: seq<File>, cs: Caches, start: nat, end: nat): nat -> bool {
    FirstIn(s1, cs, AboveLevel1(l, start, end), start)
  }

  /// The caches after level 0.
  function Level0Caches(l: Layers, s0: seq<File>, cs: Caches, start: nat, end: nat): Caches {
    if s0 == [] then cs
    else cs[s0[0].id := FileCacheAt(s0[0], CacheOf(cs, s0[0].id), InMemory(l, start, end), start, end + 1)]
  }

  /// The caches after the whole range search.
  ghost function RangeCaches(l: Layers, s0: seq<File>, s1: seq<File>, cs: Caches, start: nat, end: nat): Caches {
    LevelAsk(s1, Level0Caches(l, s0, cs, start, end), AboveLevel1(l, start, end), start, end, end + 1).0
  }

  ghost predicate SameCaches(cs: Caches, cs': Caches) {
    forall id :: CacheOf(cs, id) == CacheOf(cs', id)
  }

  lemma {:induction false} FoundInMemory(l: Layers, firsts: seq<nat -> bool>, start: nat, end: nat, results: map<nat, Record>, found: set<nat>)
    requires |firsts| == 4
    ensures Answers(Depths(l), 2, firsts, start, end, results, found) ==> found == InMemory(l, start, end)
    ensures Answers(Depths(l), 3, firsts, start, end, results, found) ==> found == AboveLevel1(l, start, end)
    ensures Answers(Depths(l), 1, firsts, start, end, results, found) ==> found <= InMemory(l, start, end)
  {
    var ts := Depths(l);
    forall k ensures AnswerOf(ts, 1, k, firsts).Some? <==> k in l.mem { assert AnswerOf(ts, 0, k, firsts).None?; }
    forall k ensures AnswerOf(ts, 2, k, firsts).Some? <==> k in l.mem || k in TableOf(l.imm) {}
    forall k ensures AnswerOf(ts, 3, k, firsts).Some? <==> k in l.mem || k in TableOf(l.imm) || k in TableOf(l.l0) {}
    hide AnswerOf, Depths;
  }

  lemma {:induction false} AllFoundFile(f: File, cs: seq<nat>, found: set<nat>, start: nat, end: nat, upto: nat)
    requires upto <= end + 1 && forall k :: start <= k <= end ==> k in found
    ensures FileCacheAt(f, cs, found, start, upto) == cs
    decreases upto
  {
    if upto > start { AllFoundFile(f, cs, found, start, end, upto - 1); }
  }

  lemma {:induction false} AllFoundLevel(files: seq<File>, cs: Caches, found: set<nat>, start: nat, end: nat, upto: nat)
    requires upto <= end + 1 && forall k :: start <= k <= end ==> k in found
    ensures LevelAsk(files, cs, found, start, end, upto) == (cs, found)
    decreases upto
  {
    if upto > start { AllFoundLevel(files, cs, found, start, end, upto - 1); }
  }

  /// Nothing is left to ask once every key is found.
  lemma {:induction false} CachesRest(l: Layers, d: nat, firsts: seq<nat -> bool>, s0: seq<File>, s1: seq<File>, cs: Caches,
                                      start: nat, end: nat, results: map<nat, Record>, found: set<nat>)
    requires 1 <= d <= 3 && |firsts| == 4 && Answers(Depths(l), d, firsts, start, end, results, found)
    requires start <= end && |results| == end - start + 1
    ensures d <= 2 ==> SameCaches(cs, RangeCaches(l, s0, s1, cs, start, end))
    ensures d == 3 ==> RangeCaches(l, s0, s1, cs, start, end) == Level0Caches(l, s0, cs, start, end)
  {
    hide *;
    FoundInMemory(l, firsts, start, end, results, found);
    AllAnswered(Depths(l), d, firsts, start, end, results, found);
    AllKeys(found, start, end);
    MoreAbove(l, start, end);
    var mem, above, c := InMemory(l, start, end), AboveLevel1(l, start, end), Level0Caches(l, s0, cs, start, end);
    SameIs(l, s0, s1, cs, start, end);
    SeesAre(l, s0, cs, start, end);
    AllFoundLevel(s1, c, above, start, end, end + 1);
    if d <= 2 {
      if s0 != [] { AllFoundFile(s0[0], CacheOf(cs, s0[0].id), mem, start, end, end + 1); }
      SameAgain(cs, if s0 == [] then 0 else s0[0].id);
    }
  }

  lemma {:induction false} AllAnswered(ts: seq<Table>, d: nat, firsts: seq<nat -> bool>, start: nat, end: nat,
                                       results: map<nat, Record>, found: set<nat>)
    requires d <= |ts| && |firsts| == |ts| && Answers(ts, d, firsts, start, end, results, found)
    ensures |found| == |results| && forall k :: k in found ==> start <= k <= end
  {
    assert found == results.Keys;
    assert |results| == |results.Keys|;
    hide AnswerOf;
  }

  lemma {:induction false} MoreAbove(l: Layers, start: nat, end: nat)
    ensures InMemory(l, start, end) <= AboveLevel1(l, start, end)
  {
  }

  lemma {:induction false} SameAgain(cs: Caches, id: nat)
    ensures SameCaches(cs, cs[id := CacheOf(cs, id)])
  {
  }

  lemma {:induction false} EmptyCaches(l: Layers, s0: seq<File>, s1: seq<File>, cs: Caches, start: nat, end: nat)
    requires start > end
    ensures SameCaches(cs, RangeCaches(l, s0, s1, cs, start, end))
  {
    AskStart(s1, Level0Caches(l, s0, cs, start, end), AboveLevel1(l, start, end), start, end);
    hide LevelAsk, InMemory, AboveLevel1;
  }

  /// The search of level 0 touches no cache of level 1.
  lemma {:induction false} OtherCaches(files: seq<File>, cs: Caches, id: nat, c: seq<nat>, found: set<nat>, start: nat, k: nat)
    requires forall f :: f in files ==> f.id != id
    ensures FirstIn(files, cs[id := c], found, start)(k) == FirstIn(files, cs, found, start)(k)
  {
    FirstInIs(files, cs, found, start, k);
    FirstInIs(files, cs[id := c], found, start, k);
    FileOfIn(files, k);
    hide FirstIn, FileOf, FirstOf;
  }

  lemma {:induction false} FileOfIn(files: seq<File>, k: nat)
    ensures FileOf(files, k).Some? ==> FileOf(files, k).value in files
  {
    if files != [] { FileOfIn(files[1..], k); }
  }

  lemma {:induction false} Level1Took(l: Layers, s0: seq<File>, s1: seq<File>, cs: Caches, start: nat, end: nat,
                                      results: map<nat, Record>, found: set<nat>, r: map<nat, Record>, s: set<nat>)
    requires s0 != [] ==> forall f :: f in s1 ==> f.id != s0[0].id
    requires found == AboveLevel1(l, start, end)
    requires Took(LevelTable(s1), FirstIn(s1, Level0Caches(l, s0, cs, start, end), found, start), start, end + 1, results, found, r, s)
    ensures Took(LevelTable(s1), Sees1(l, s1, cs, start, end), start, end + 1, results, found, r, s)
  {
    var c := Level0Caches(l, s0, cs, start, end);
    var first, first' := FirstIn(s1, c, found, start), Sees1(l, s1, cs, start, end);
    forall k | k in s && k !in found ensures first(k) == first'(k) {
      if s0 != [] { OtherCaches(s1, cs, s0[0].id, CacheOf(c, s0[0].id), found, start, k); }
    }
    hide FirstIn, LevelTable, Took, AboveLevel1, FileCacheAt;
    TookAs(LevelTable(s1), first, first', start, end + 1, results, found, r, s);
  }

  lemma {:induction false} SeesAre(l: Layers, s0: seq<File>, cs: Caches, start: nat, end: nat)
    ensures Sees0(l, s0, cs, start, end) ==
      if s0 == [] then Always else FirstOf(s0[0], CacheOf(cs, s0[0].id), InMemory(l, start, end), start)
    ensures Level0Caches(l, s0, cs, start, end) ==
      if s0 == [] then cs
      else cs[s0[0].id := FileCacheAt(s0[0], CacheOf(cs, s0[0].id), InMemory(l, start, end), start, end + 1)]
  {
    hide FirstOf, FileCacheAt, InMemory, CacheOf;
  }

  lemma {:induction false} SameIs(l: Layers, s0: seq<File>, s1: seq<File>, cs: Caches, start: nat, end: nat)
    ensures RangeCaches(l, s0, s1, cs, start, end) ==
      LevelAsk(s1, Level0Caches(l, s0, cs, start, end), AboveLevel1(l, start, end), start, end, end + 1).0
    ensures forall c :: SameCaches(c, c)
  {
    hide LevelAsk, Level0Caches, AboveLevel1, CacheOf;
  }

  /// The memtables' part of lsm_tree_range_search; `d` of the two were asked.
  method MemoryRange(t: LsmTree, start: nat, end: nat, ghost first0: nat -> bool, ghost first1: nat -> bool)
    returns (results: map<nat, Record>, found: set<nat>, ghost d: nat)
    requires t.Valid() && start <= end
    ensures 1 <= d <= 2 && (d == 1 ==> |results| == end - start + 1)
    ensures Answers(Depths(t.LayersOf()), d, Firsts(first0, first1), start, end, results, found)
  {
    hide *;
    ghost var l := t.LayersOf();
    ghost var ts, firsts := Depths(l), Firsts(first0, first1);
    RangeParts(t, first0, first1);
    AnswersStart(l, start, end, first0, first1);
    results, found, d := map[], {}, 1;
    var r, s := TableRange(t.memtable.tree, start, end, results, found);
    AnswersNext(ts, 0, firsts, start, end, results, found, r, s);
    results, found := r, s;
    if |results| == end - start + 1 { return; }
    d := 2;
    if t.immutable != null {
      r, s := TableRange(t.immutable.tree, start, end, results, found);
    } else {
      TookNothing(Always, start, end + 1, results, found);
    }
    AnswersNext(ts, 1, firsts, start, end, results, found, r, s);
    results, found := r, s;
  }

  /// The part for the levels.
  method DiskRange(t: LsmTree, start: nat, end: nat, results0: map<nat, Record>, found0: set<nat>, ghost first0: nat -> bool,
                   ghost first1: nat -> bool) returns (results: map<nat, Record>)
    requires t.Valid() && start <= end
    requires first0 == Sees0(t.LayersOf(), t.level0.files, t.caches, start, end)
    requires first1 == Sees1(t.LayersOf(), t.level1.files, t.caches, start, end)
    requires Answers(Depths(t.LayersOf()), 2, Firsts(first0, first1), start, end, results0, found0)
    modifies t`caches
    ensures RangeOk(t.LayersOf(), start, end, first0, first1, results)
    ensures SameCaches(t.caches, RangeCaches(t.LayersOf(), t.level0.files, t.level1.files, old(t.caches), start, end))
  {
    hide *;
    ghost var l, s0, s1, cs := t.LayersOf(), t.level0.files, t.level1.files, t.caches;
    ghost var ts, firsts := Depths(l), Firsts(first0, first1);
    RangeParts(t, first0, first1);
    RangeIds(t);
    SeesAre(l, s0, cs, start, end);
    SameIs(l, s0, s1, cs, start, end);
    FoundInMemory(l, firsts, start, end, results0, found0);
    var found, r, s := found0, results0, found0;
    results := results0;
    if |t.level0.files| > 0 {
      var f := t.level0.files[0];
      var c;
      r, s, c := FileRange(f, start, end, CacheOf(t.caches, f.id), results, found);
      t.caches := t.caches[f.id := c];
    } else {
      TookNothing(first0, start, end + 1, results, found);
    }
    AnswersNext(ts, 2, firsts, start, end, results, found, r, s);
    results, found := r, s;
    if |results| == end - start + 1 {
      Conclude(l, 3, start, end, first0, first1, results, found);
      CachesRest(l, 3, firsts, s0, s1, cs, start, end, results, found);
      return;
    }
    FoundInMemory(l, firsts, start, end, results, found);
    var caches;
    r, s, caches := LevelRange(t.level1, start, end, t.caches, results, found);
    t.caches := caches;
    Level1Took(l, s0, s1, cs, start, end, results, found, r, s);
    AnswersNext(ts, 3, firsts, start, end, results, found, r, s);
    results := r;
    Conclude(l, 4, start, end, first0, first1, results, s);
  }

  /// lsm_tree_range_search: which record each key gives, and what is left in the leaf caches, follow from
  /// the tables, the files and the caches before the search.
  method Range(t: LsmTree, start: nat, end: nat) returns (results: map<nat, Record>)
    requires t.Valid() && end < MAX_KEY
    modifies t`caches
    ensures RangeOk(t.LayersOf(), start, end, Sees0(t.LayersOf(), t.level0.files, old(t.caches), start, end),
                    Sees1(t.LayersOf(), t.level1.files, old(t.caches), start, end), results)
    ensures SameCaches(t.caches, RangeCaches(t.LayersOf(), t.level0.files, t.level1.files, old(t.caches), start, end))
  {
    hide *;
    ghost var l, s0, s1, cs := t.LayersOf(), t.level0.files, t.level1.files, t.caches;
    ghost var first0, first1 := Sees0(l, s0, cs, start, end), Sees1(l, s1, cs, start, end);
    if start > end {
      EmptyRange(l, start, end, first0, first1);
      EmptyCaches(l, s0, s1, cs, start, end);
      return map[];
    }
    var found;
    ghost var d;
    results, found, d := MemoryRange(t, start, end, first0, first1);
    if |results| == end - start + 1 {
      Conclude(l, d, start, end, first0, first1, results, found);
      CachesRest(l, d, Firsts(first0, first1), s0, s1, cs, start, end, results, found);
      return;
    }
    results := DiskRange(t, start, end, results, found, first0, first1);
  }

  // ---------------------------------------------------------------- when it answers with a negative

  /// The file holds the key as a value and a negative, both in one leaf, and that leaf is not cached when
  /// the search reaches the key.
  predicate LostInLeaf(f: File, cs: Caches, found: set<nat>, start: nat, k: nat) {
    OneLeaf(f.es, LEAF_LEN, k) && LeafKey(f.es, LEAF_LEN, k) !in FileCacheAt(f, CacheOf(cs, f.id), found, start, k)
  }

  /// The same without the search's own history, while the cache has room for the keys of the search: the
  /// leaf was not cached before, and no earlier key of the search was found in it.
  lemma {:induction false} LostWhen(f: File, cs: Caches, found: set<nat>, start: nat, k: nat)
    requires FileOk(f) && start <= k
    ensures var x := LeafKey(f.es, LEAF_LEN, k);
      var unasked := OneLeaf(f.es, LEAF_LEN, k) && !AskedInLeaf(f.es, LEAF_LEN, found, start, k, x);
      && (LostInLeaf(f, cs, found, start, k) ==> unasked)
      && (unasked && x !in CacheOf(cs, f.id) ==> LostInLeaf(f, cs, found, start, k))
      && (|CacheOf(cs, f.id)| + (k - start) <= MAX_LEAF_NODE_CACHED ==>
            (LostInLeaf(f, cs, found, start, k) <==> unasked && x !in CacheOf(cs, f.id)))
  {
    ShapeSorted(f.es);
    LeafLen();
    if OneLeaf(f.es, LEAF_LEN, k) {
      HeldKey(f.es, LEAF_LEN, k);
      CachedWhen(f.es, LEAF_LEN, MAX_LEAF_NODE_CACHED, CacheOf(cs, f.id), found, start, k);
    }
    hide OneLeaf, LeafKey, CacheOf, CacheAt, AskedInLeaf, Shape;
  }

  lemma {:induction false} HeldKey(es: seq<Entry>, l: nat, k: nat)
    requires l >= 1 && Shape(es) && OneLeaf(es, l, k)
    ensures InKeys(es, k)
  {
    hide FirstAt;
  }

  /// The newest level that knows the key is a file for which that is so.
  predicate Misread(l: Layers, s0: seq<File>, s1: seq<File>, cs: Caches, start: nat, end: nat, k: nat) {
    && k !in l.mem && k !in TableOf(l.imm)
    && if k in TableOf(l.l0) then s0 != [] && LostInLeaf(s0[0], cs, InMemory(l, start, end), start, k)
       else FileOf(s1, k).Some? && LostInLeaf(FileOf(s1, k).value, cs, AboveLevel1(l, start, end), start, k)
  }

  lemma {:induction false} FileLoses(f: File, cs: Caches, found: set<nat>, start: nat, k: nat)
    requires FileOk(f)
    ensures LostInLeaf(f, cs, found, start, k) <==>
      k in Contents(f) && Both(Contents(f)[k]) && !FirstOf(f, CacheOf(cs, f.id), found, start)(k)
  {
    Places(f.es, k);
    FirstOfIs(f, CacheOf(cs, f.id), found, start, k);
    hide LeafKey, FileCacheAt, CacheOf, TableFrom, FirstAt, Shape;
  }

  /// The level's table has a key as the located file has it.
  lemma {:induction false} FileCell(files: seq<File>, k: nat)
    requires Disjoint(files) && forall i :: 0 <= i < |files| ==> FileOk(files[i])
    ensures FileOf(files, k).Some? ==> FileOf(files, k).value in files
    ensures k in LevelTable(files) <==> FileOf(files, k).Some? && k in Contents(FileOf(files, k).value)
    ensures k in LevelTable(files) ==> LevelTable(files)[k] == Contents(FileOf(files, k).value)[k]
  {
    var f := FileOf(files, k);
    FileOfIn(files, k);
    FileOfRange(files, k);
    Located(files, k, f);
    hide LevelTable, Contents, FileOf, FileOk, Disjoint;
  }

  lemma {:induction false} FileOfRange(files: seq<File>, k: nat)
    ensures FileOf(files, k).Some? ==> FileOf(files, k).value.first <= k <= FileOf(files, k).value.last
    ensures FileOf(files, k).None? ==> forall i :: 0 <= i < |files| ==> !(files[i].first <= k <= files[i].last)
  {
    if files != [] {
      FileOfRange(files[1..], k);
      assert forall i :: 0 < i < |files| ==> files[i] == files[1..][i-1];
    }
  }

  /// Range search and point search disagree on a key exactly when it is misread: the condition speaks of
  /// leaf boundaries, of the caches before the search, and of the keys that are looked up before.
  lemma {:induction false} MisreadIs(l: Layers, s0: seq<File>, s1: seq<File>, cs: Caches, start: nat, end: nat, k: nat)
    requires l.l0 == Level0(s0) && l.l1 == LevelTable(s1) && Disjoint(s1)
    requires s0 != [] ==> FileOk(s0[0])
    requires forall i :: 0 <= i < |s1| ==> FileOk(s1[i])
    ensures Diverges(l, k, Sees0(l, s0, cs, start, end)(k), Sees1(l, s1, cs, start, end)(k)) <==>
      Misread(l, s0, s1, cs, start, end, k)
  {
    var mem, above := InMemory(l, start, end), AboveLevel1(l, start, end);
    if s0 != [] { FileLoses(s0[0], cs, mem, start, k); }
    FileCell(s1, k);
    FirstInIs(s1, cs, above, start, k);
    if FileOf(s1, k).Some? { FileLoses(FileOf(s1, k).value, cs, above, start, k); }
    hide FirstOf, FirstIn, LostInLeaf, FileOf, Contents, LevelTable, InMemory, AboveLevel1, FileOk, Disjoint, CacheOf;
  }
}
