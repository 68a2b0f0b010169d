/** Index files and the sorted levels that hold them (lsm_tree.c:963-1290). */
module Level {
  import opened Common
  import opened Index
  import opened Tables

  /// An index file as the level sees it: its statistics and the entries it holds.
  datatype File = File(id: nat, version: nat, first: nat, last: nat, es: seq<Entry>)

  ghost predicate FileOk(f: File) {
    && f.es != [] && Shape(f.es)
    && f.first == f.es[0].key && f.last == f.es[|f.es|-1].key
  }

  function Contents(f: File): Table {
    TableFrom(f.es)
  }

  lemma {:induction false} KeyInRange(f: File, k: nat)
    requires FileOk(f) && k in Contents(f)
    ensures f.first <= k <= f.last
  {
    TableKeys(f.es, k);
  }

  // ---------------------------------------------------------------- order

  /// bit_file_cmp.
  function Cmp(f: File, g: File): int {
    if f.first == g.first then f.last - g.last else f.first - g.first
  }

  ghost predicate CmpSorted(files: seq<File>) {
    forall i, j :: 0 <= i < j < |files| ==> Cmp(files[i], files[j]) <= 0
  }

  predicate Apart(f: File, g: File) {
    f.last < g.first || g.last < f.first
  }

  /// Sorted with pairwise disjoint key ranges.
  ghost predicate Disjoint(files: seq<File>) {
    && (forall i :: 0 <= i < |files| ==> files[i].first <= files[i].last)
    && (forall i, j :: 0 <= i < j < |files| ==> files[i].last < files[j].first)
  }

  /// A level sorted by the comparison is disjoint as soon as its files are pairwise apart.
  lemma {:induction false} SortedApart(files: seq<File>)
    requires CmpSorted(files) && forall i :: 0 <= i < |files| ==> files[i].first <= files[i].last
    requires forall i, j :: 0 <= i < j < |files| ==> Apart(files[i], files[j])
    ensures Disjoint(files)
  {
    forall i, j | 0 <= i < j < |files| ensures files[i].last < files[j].first {
      assert Apart(files[i], files[j]) && Cmp(files[i], files[j]) <= 0;
    }
  }

  /// The table that a disjoint level stands for.
  function LevelTable(files: seq<File>): Table {
    if files == [] then map[] else LevelTable(files[..|files|-1]) + Contents(files[|files|-1])
  }

  lemma {:induction false} LevelKeys(files: seq<File>, k: nat)
    ensures k in LevelTable(files) <==> exists i :: 0 <= i < |files| && k in Contents(files[i])
  {
    if files != [] {
      var n := |files| - 1;
      LevelKeys(files[..n], k);
      if i :| 0 <= i < |files| && k in Contents(files[i]) {
        if i < n { assert k in Contents(files[..n][i]); }
      }
      if k in LevelTable(files[..n]) {
        var i :| 0 <= i < n && k in Contents(files[..n][i]);
        assert k in Contents(files[i]);
      }
    }
  }

  /// In a disjoint level one file answers for a key.
  lemma {:induction false} LevelCell(files: seq<File>, k: nat, i: nat)
    requires Disjoint(files) && (forall j :: 0 <= j < |files| ==> FileOk(files[j]))
    requires i < |files| && k in Contents(files[i])
    ensures k in LevelTable(files) && LevelTable(files)[k] == Contents(files[i])[k]
  {
    var n := |files| - 1;
    KeyInRange(files[i], k);
    if i < n {
      if k in Contents(files[n]) { KeyInRange(files[n], k); }
      assert Disjoint(files[..n]);
      LevelCell(files[..n], k, i);
    }
  }

  ghost predicate NewestAt(files: seq<File>, k: nat, w: nat)
    requires w < |files|
  {
    forall i :: 0 <= i < |files| && FirstMatch(files[i].es, k).Some? ==> files[i].version <= files[w].version
  }

  /// What a search of a level answers: the record of the newest file that has the key.
  ghost predicate Newest(files: seq<File>, k: nat, r: Option<Record>) {
    if r.None? then forall i :: 0 <= i < |files| ==> FirstMatch(files[i].es, k).None?
    else exists w :: 0 <= w < |files| && NewestAt(files, k, w) && FirstMatch(files[w].es, k) == r
  }

  lemma {:induction false} OutOfRange(f: File, k: nat)
    requires FileOk(f) && (k < f.first || f.last < k)
    ensures FirstMatch(f.es, k).None?
  {
    FirstMatchNone(f.es, k);
  }

  function Without(files: seq<File>, p: nat): seq<File>
    requires p < |files|
  {
    files[..p] + files[p+1..]
  }

  class BitLevel {
    const level: nat
    const capacity: nat
    const maxSize: nat
    var files: seq<File>

    ghost predicate Valid()
      reads this
    {
      && |files| <= maxSize
      && CmpSorted(files)
      && forall i :: 0 <= i < |files| ==> FileOk(files[i])
    }

    /// bit_level_init.
    constructor (l: nat, cap: nat)
      ensures Valid() && files == [] && level == l && capacity == cap && maxSize == 2 * cap + 1
    {
      level, capacity, maxSize := l, cap, 2 * cap + 1;
      files := [];
    }

    method IsFull() returns (full: bool)
      ensures full == (|files| >= capacity)
    {
      full := |files| >= capacity;
    }

    /// bit_level_search_file: where a file belongs.
    method SearchFile(f: File) returns (pos: nat)
      requires CmpSorted(files)
      ensures pos <= |files|
      ensures forall i :: 0 <= i < pos ==> Cmp(files[i], f) <= 0
      ensures forall i :: pos <= i < |files| ==> Cmp(f, files[i]) <= 0
    {
      if |files| == 0 { return 0; }
      var low, high := 0, |files| - 1;
      if Cmp(files[low], f) >= 0 { return low; }
      if Cmp(files[high], f) <= 0 { return high + 1; }
      while low < high
        invariant 0 <= low <= high < |files|
        invariant forall i :: 0 <= i < low ==> Cmp(files[i], f) <= 0
        invariant forall i :: high <= i < |files| ==> Cmp(f, files[i]) <= 0
      {
        var mid := low + (high - low) / 2;
        if Cmp(files[mid], f) < 0 {
          low := mid + 1;
        } else {
          high := mid;
        }
      }
      pos := low;
    }

    /// bit_level_add_file: insertion in place, refused when the array is full.
    method AddFile(f: File) returns (ok: bool)
      requires Valid() && FileOk(f)
      modifies this
      ensures Valid() && ok == (|old(files)| < maxSize)
      ensures !ok ==> files == old(files)
      ensures ok ==> exists pos :: 0 <= pos <= |old(files)| && files == old(files)[..pos] + [f] + old(files)[pos..]
    {
      if |files| >= maxSize { return false; }
      var pos := SearchFile(f);
      files := files[..pos] + [f] + files[pos..];
      ok := true;
    }

    /// bit_level_remove_file: the first file with this id.
    method RemoveFile(id: nat) returns (ok: bool)
      requires Valid()
      modifies this
      ensures Valid()
      ensures ok == exists i :: 0 <= i < |old(files)| && old(files)[i].id == id
      ensures !ok ==> files == old(files)
      ensures ok ==> exists p :: 0 <= p < |old(files)| && old(files)[p].id == id && files == Without(old(files), p)
    {
      for pos := 0 to |files|
        invariant files == old(files)
        invariant forall i :: 0 <= i < pos ==> files[i].id != id
      {
        if files[pos].id == id {
          files := Without(files, pos);
          return true;
        }
      }
      ok := false;
    }

    /// bit_level_locate_file: bsearch for the file whose range has the key.
    method LocateFile(k: nat) returns (r: Option<File>)
      requires Disjoint(files)
      ensures r.Some? ==> r.value in files && r.value.first <= k <= r.value.last
      ensures r.None? ==> forall i :: 0 <= i < |files| ==> !(files[i].first <= k <= files[i].last)
    {
      var base, num := 0, |files|;
      while num > 0
        invariant 0 <= base <= base + num <= |files|
        invariant forall i :: 0 <= i < base ==> files[i].last < k
        invariant forall i :: base + num <= i < |files| ==> k < files[i].first
        decreases num
      {
        var pivot := base + num / 2;
        var f := files[pivot];
        if f.first <= k <= f.last { return Some(f); }
        if k > f.last {
          base := pivot + 1;
          num := num - 1;
        }
        num := num / 2;
      }
      r := None;
    }

    /// bit_level_linear_search: every file in range is asked, newer versions win.
    method LinearSearch(k: nat) returns (r: Option<Record>)
      requires Valid()
      ensures Newest(files, k, r)
    {
      r := None;
      var cur := 0;
      ghost var w := 0;
      for i := 0 to |files|
        invariant r.None? ==> cur == 0 && forall j :: 0 <= j < i ==> FirstMatch(files[j].es, k).None?
        invariant r.Some? ==> 0 <= w < i && FirstMatch(files[w].es, k) == r && cur == files[w].version
        invariant r.Some? ==> forall j :: 0 <= j < i && FirstMatch(files[j].es, k).Some? ==> files[j].version <= cur
      {
        if files[i].version < cur { continue; }
        if k < files[i].first || k > files[i].last {
          OutOfRange(files[i], k);
          continue;
        }
        var m := FirstMatch(files[i].es, k);
        if m.Some? {
          r, cur, w := m, files[i].version, i;
        }
      }
      assert r.Some? ==> NewestAt(files, k, w);
    }

    /// bit_level_search of the disjoint level.
    method Search(k: nat) returns (r: Option<Record>)
      requires Valid() && Disjoint(files)
      ensures r == if k in LevelTable(files) then Some(First(LevelTable(files)[k])) else None
    {
      var f := LocateFile(k);
      LevelKeys(files, k);
      if f.None? {
        forall i | 0 <= i < |files| ensures k !in Contents(files[i]) {
          if k in Contents(files[i]) { KeyInRange(files[i], k); }
        }
        return None;
      }
      r := FirstMatch(f.value.es, k);
      FirstIsTable(f.value.es, k);
      var i :| 0 <= i < |files| && files[i] == f.value;
      if k in Contents(files[i]) {
        LevelCell(files, k, i);
      } else {
        forall j | 0 <= j < |files| ensures k !in Contents(files[j]) {
          if k in Contents(files[j]) { KeyInRange(files[j], k); }
        }
      }
    }

    /// bit_level_lower_bound.  The answer may be one file early: the file there can end before the key.
    method LowerBound(k: nat) returns (pos: nat)
      requires Disjoint(files) && files != []
      ensures pos <= |files|
      ensures forall i :: 0 <= i < pos ==> files[i].last < k
      ensures forall i :: pos < i < |files| ==> k < files[i].first
    {
      var low: int, high: int := 0, |files| - 1;
      if k < files[low].first { return 0; }
      if k > files[high].last { return high + 1; }
      while low < high
        invariant 0 <= low <= high + 1 <= |files| && low < |files|
        invariant forall i :: 0 <= i < low ==> files[i].last < k
        invariant forall i :: high < i < |files| ==> k < files[i].first
        decreases high - low
      {
        var mid := low + (high - low) / 2;
        if files[mid].first <= k <= files[mid].last { return mid; }
        if k < files[mid].first {
          high := mid - 1;
        } else {
          low := mid + 1;
        }
      }
      pos := low;
    }

    /// bit_level_find_relative_files: the run files[p..q].  Every overlapping file is in it, and at
    /// most its first file does not overlap (it then ends below the demoted range).
    method FindRelativeFiles(first: nat, last: nat) returns (p: nat, q: nat)
      requires Disjoint(files) && first <= last
      ensures p <= q <= |files|
      ensures forall i :: 0 <= i < |files| && files[i].first <= last && first <= files[i].last ==> p <= i < q
      ensures p < q ==> forall i :: 0 <= i < p ==> files[i].last < first
      ensures p < q ==> forall i :: q <= i < |files| ==> last < files[i].first
      ensures forall i :: p < i < q ==> files[i].first <= last && first <= files[i].last
      ensures p < q ==> files[p].first <= last
    {
      if files == [] { return 0, 0; }
      if last < files[0].first || first > files[|files| - 1].last { return 0, 0; }
      p := LowerBound(first);
      q := p;
      while q < |files| && files[q].first <= last
        invariant p <= q <= |files|
        invariant forall i :: p <= i < q ==> files[i].first <= last
      {
        q := q + 1;
      }
    }
  }
}
