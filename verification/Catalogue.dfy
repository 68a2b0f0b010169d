/** The file catalogue of the index (metadata.c:1014-1046, 1109-1114): file ids are the bits of
a validity table, versions come from a counter. */
module Catalogue {
  import opened Common
  import opened Index
  import opened Tables
  import opened Level
  import opened Segments

  class Catalogue {
    const bits: SegValidator
    var maxVersion: nat

    ghost predicate Valid()
      reads this, bits
    {
      bits.Valid()
    }

    /// bit_catalogue_init on a formatted device.
    constructor (maxFd: nat)
      ensures Valid() && fresh(bits) && maxVersion == 0 && bits.nr == maxFd && Count(bits.table) == 0
    {
      bits := new SegValidator(maxFd);
      maxVersion := 0;
    }

    /// bitc_alloc_file: a free id, unless every id is taken.
    method AllocFile() returns (fd: Option<nat>)
      requires Valid()
      modifies bits
      ensures Valid()
      ensures fd.None? <==> Count(old(bits.table)) == bits.nr
      ensures fd.None? ==> bits.table == old(bits.table)
      ensures fd.Some? ==> fd.value < bits.nr && !old(bits.table)[fd.value]
      ensures fd.Some? ==> FirstClear(old(bits.table), old(bits.cur), fd.value) && bits.cur == fd.value + 1
      ensures fd.Some? ==> bits.table == old(bits.table)[fd.value := true]
    {
      CountFull(bits.table);
      fd := bits.Next();
      if fd.Some? {
        var ok := bits.Take(fd.value);
      }
    }

    /// bitc_release_file.
    method ReleaseFile(fd: nat)
      requires Valid()
      modifies bits
      ensures Valid()
      ensures bits.table == if fd < bits.nr then old(bits.table)[fd := false] else old(bits.table)
      ensures bits.cur == old(bits.cur)
    {
      var was := bits.TestAndReturn(fd);
    }

    /// bitc_get_next_version.
    method NextVersion() returns (v: nat)
      requires Valid()
      modifies this`maxVersion
      ensures Valid() && v == old(maxVersion) && maxVersion == v + 1
    {
      v := maxVersion;
      maxVersion := maxVersion + 1;
    }
  }

  // ---------------------------------------------------------------- which ids are taken

  function FileSet(fs: seq<File>): set<File> {
    set f | f in fs
  }

  ghost predicate NoDup(fs: seq<File>) {
    forall i, j :: 0 <= i < j < |fs| ==> fs[i] != fs[j]
  }

  /// The live files of both levels: each has its own taken id, no other id is taken, versions have
  /// been handed out, and no file exceeds the capacity.
  ghost predicate Stocked(bits: seq<bool>, next: nat, s0: seq<File>, s1: seq<File>, cap: nat) {
    && NoDup(s0) && NoDup(s1) && FileSet(s0) !! FileSet(s1)
    && (forall f :: f in FileSet(s0) + FileSet(s1) ==>
         FileOk(f) && |f.es| <= cap && f.version < next && f.id < |bits| && bits[f.id])
    && (forall f, g :: f in FileSet(s0) + FileSet(s1) && g in FileSet(s0) + FileSet(s1) && f.id == g.id ==> f == g)
    && Count(bits) == |s0| + |s1|
  }

  lemma {:induction false} StockedSwap(bits: seq<bool>, next: nat, s0: seq<File>, s1: seq<File>, cap: nat)
    requires Stocked(bits, next, s0, s1, cap)
    ensures Stocked(bits, next, s1, s0, cap)
  {
    assert FileSet(s0) + FileSet(s1) == FileSet(s1) + FileSet(s0);
  }

  lemma {:induction false} InsertSet(fs: seq<File>, pos: nat, f: File)
    requires pos <= |fs|
    ensures FileSet(fs[..pos] + [f] + fs[pos..]) == FileSet(fs) + {f}
    ensures NoDup(fs) && f !in fs ==> NoDup(fs[..pos] + [f] + fs[pos..])
  {
    var r := fs[..pos] + [f] + fs[pos..];
    assert fs == fs[..pos] + fs[pos..];
    assert r[pos] == f;
    forall x ensures x in FileSet(r) <==> x in FileSet(fs) + {f} {
      assert x in fs <==> x in fs[..pos] || x in fs[pos..];
    }
    if NoDup(fs) && f !in fs {
      forall i, j | 0 <= i < j < |r| ensures r[i] != r[j] {
        assert r[i] == if i < pos then fs[i] else if i == pos then f else fs[i-1];
        assert r[j] == if j < pos then fs[j] else if j == pos then f else fs[j-1];
      }
    }
  }

  lemma {:induction false} WithoutSet(fs: seq<File>, p: nat)
    requires p < |fs| && NoDup(fs)
    ensures FileSet(Without(fs, p)) == FileSet(fs) - {fs[p]} && NoDup(Without(fs, p))
  {
    var r := Without(fs, p);
    assert forall i :: 0 <= i < |r| ==> r[i] == if i < p then fs[i] else fs[i+1];
    forall x ensures x in FileSet(r) <==> x in FileSet(fs) - {fs[p]} {
      if x in fs && x != fs[p] {
        var i :| 0 <= i < |fs| && fs[i] == x;
        assert r[if i < p then i else i - 1] == x;
      }
    }
  }

  /// A new file with a free id joins a level.
  lemma {:induction false} StockedAdd(bits: seq<bool>, next: nat, s0: seq<File>, s1: seq<File>, cap: nat, pos: nat, f: File, next': nat)
    requires Stocked(bits, next, s0, s1, cap) && pos <= |s1| && next <= next'
    requires FileOk(f) && |f.es| <= cap && f.version < next' && f.id < |bits| && !bits[f.id]
    ensures Stocked(bits[f.id := true], next', s0, s1[..pos] + [f] + s1[pos..], cap)
  {
    InsertSet(s1, pos, f);
    CountSet(bits, f.id, true);
    assert f !in FileSet(s0) + FileSet(s1);
    assert FileSet(s0) + (FileSet(s1) + {f}) == FileSet(s0) + FileSet(s1) + {f};
    hide FileOk, NoDup, FileSet, Count;
  }

  /// A file leaves a level and gives its id back.
  lemma {:induction false} StockedRemove(bits: seq<bool>, next: nat, s0: seq<File>, s1: seq<File>, cap: nat, p: nat)
    requires Stocked(bits, next, s0, s1, cap) && p < |s1|
    ensures s1[p].id < |bits| && Stocked(bits[s1[p].id := false], next, s0, Without(s1, p), cap)
  {
    var f := s1[p];
    assert f in FileSet(s0) + FileSet(s1) && f !in FileSet(s0);
    WithoutSet(s1, p);
    CountSet(bits, f.id, false);
    assert FileSet(s0) + (FileSet(s1) - {f}) == FileSet(s0) + FileSet(s1) - {f};
    hide FileOk, NoDup, FileSet, Count;
  }

  /// A file changes level and gets a new version.
  lemma {:induction false} StockedMove(bits: seq<bool>, next: nat, f: File, s1: seq<File>, cap: nat, pos: nat)
    requires Stocked(bits, next, [f], s1, cap) && pos <= |s1|
    ensures Stocked(bits, next + 1, [], s1[..pos] + [f.(version := next)] + s1[pos..], cap)
  {
    StockedSwap(bits, next, [f], s1, cap);
    StockedRemove(bits, next, s1, [f], cap, 0);
    assert Without([f], 0) == [];
    StockedSwap(bits[f.id := false], next, s1, [], cap);
    assert f in FileSet([f]) && f in FileSet([f]) + FileSet(s1);
    StockedAdd(bits[f.id := false], next, [], s1, cap, pos, f.(version := next), next + 1);
    assert bits[f.id := false][f.id := true] == bits;
  }
}
