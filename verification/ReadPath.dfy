/** Reading a range of blocks (dm-jindisk.c:75-105, 189-229, 267-360): the pool first, then the
records, whose blocks are fetched in runs of consecutive addresses and opened one by one. */
module ReadPath {
  import opened Common
  import opened Index
  import opened Engine

  /// A block to fetch: where its plain data goes (the block of the request) and its record.
  datatype BlkInfo = BlkInfo(lba: nat, record: Record, page: nat)

  /// One read request: blocks first..last of the collected list, both inclusive.
  datatype Run = Run(first: nat, last: nat)

  // ---------------------------------------------------------------- runs

  /// The address of the next block is the next address.
  predicate Rises(pbas: seq<nat>, i: nat) {
    i + 1 < |pbas| && pbas[i] + 1 == pbas[i+1]
  }

  /// The runs cut the first n blocks: each block is in exactly one run, in order; addresses rise by
  /// one inside a run and never across the start of one, so no run could be longer.
  ghost predicate Cut(pbas: seq<nat>, runs: seq<Run>, n: nat) {
    if runs == [] then n == 0
    else
      var r := runs[|runs|-1];
      && r.first <= r.last && r.last + 1 == n <= |pbas|
      && (forall i :: r.first <= i < r.last ==> Rises(pbas, i))
      && (r.first > 0 ==> !Rises(pbas, r.first - 1))
      && Cut(pbas, runs[..|runs|-1], r.first)
  }

  lemma {:induction false} NoRuns(pbas: seq<nat>)
    ensures Cut(pbas, [], 0)
  {
  }

  lemma {:induction false} RunAppended(pbas: seq<nat>, runs: seq<Run>, s: nat, e: nat)
    requires Cut(pbas, runs, s) && s <= e < |pbas| && (s > 0 ==> !Rises(pbas, s - 1))
    requires forall i :: s <= i < e ==> Rises(pbas, i)
    ensures Cut(pbas, runs + [Run(s, e)], e + 1)
  {
    assert (runs + [Run(s, e)])[..|runs|] == runs;
  }

  /// The loop of jindisk_do_read that decides which blocks are fetched together.
  method Coalesce(pbas: seq<nat>) returns (runs: seq<Run>)
    ensures Cut(pbas, runs, |pbas|)
  {
    runs := [];
    var rangeStart, rangeEnd := 0, 0;
    hide Cut;
    assert Cut(pbas, [], 0) by { NoRuns(pbas); }
    while rangeEnd < |pbas|
      invariant 0 <= rangeStart <= rangeEnd <= |pbas| && (rangeEnd == |pbas| ==> rangeStart == rangeEnd)
      invariant Cut(pbas, runs, rangeStart)
      invariant forall i :: rangeStart <= i < rangeEnd ==> Rises(pbas, i)
      invariant rangeStart > 0 ==> !Rises(pbas, rangeStart - 1)
    {
      if rangeEnd + 1 < |pbas| && pbas[rangeEnd] + 1 == pbas[rangeEnd + 1] {
        rangeEnd := rangeEnd + 1;
        continue;
      }
      RunAppended(pbas, runs, rangeStart, rangeEnd);
      runs := runs + [Run(rangeStart, rangeEnd)];
      rangeStart := rangeEnd + 1;
      rangeEnd := rangeEnd + 1;
    }
  }

  /// There is only one such cut.
  lemma {:induction false} CutUnique(pbas: seq<nat>, a: seq<Run>, b: seq<Run>, n: nat)
    requires Cut(pbas, a, n) && Cut(pbas, b, n)
    ensures a == b
    decreases n
  {
    if n > 0 {
      var x, y := a[|a|-1], b[|b|-1];
      CutUnique(pbas, a[..|a|-1], b[..|b|-1], x.first);
      assert a == a[..|a|-1] + [x] && b == b[..|b|-1] + [y];
    }
  }

  /// The runs as an index: every block lies in one.
  lemma {:induction false} CutCovers(pbas: seq<nat>, runs: seq<Run>, n: nat, i: nat) returns (r: nat)
    requires Cut(pbas, runs, n) && i < n
    ensures r < |runs| && runs[r].first <= i <= runs[r].last < |pbas|
    ensures pbas[i] == pbas[runs[r].first] + (i - runs[r].first)
  {
    var m := |runs| - 1;
    if i >= runs[m].first {
      r := m;
      Climb(pbas, runs[m].first, i);
    } else {
      r := CutCovers(pbas, runs[..m], runs[m].first, i);
    }
  }

  lemma {:induction false} Climb(pbas: seq<nat>, a: nat, b: nat)
    requires a <= b < |pbas| && forall i :: a <= i < b ==> Rises(pbas, i)
    ensures pbas[b] == pbas[a] + (b - a)
  {
    if a < b { Climb(pbas, a, b - 1); assert Rises(pbas, b - 1); }
  }

  // ---------------------------------------------------------------- a request

  /// Contents of `count` blocks of the device from `pba` on: one request.
  function Fetch(disk: map<nat, Sealed>, pba: nat, count: nat): (buffer: seq<Option<Sealed>>)
    ensures |buffer| == count
    ensures forall i :: 0 <= i < count ==> buffer[i] == if pba + i in disk then Some(disk[pba + i]) else None
  {
    seq(count, i => if pba + i in disk then Some(disk[pba + i]) else None)
  }

  /// What opening the block of a record gives.
  function Opened(disk: map<nat, Sealed>, r: Record): Option<Data> {
    if r.pba in disk then Open(disk[r.pba], r.key, r.pba) else None
  }

  /// The pool does not have the block, and it has a record that is not negative.
  predicate Wanted(e: Engine, start: nat, results: map<nat, Record>, i: nat) {
    Query(e.pool.bufs, start + i).None? && start + i in results && !Negative(results[start + i])
  }

  ghost predicate HasPage(blks: seq<BlkInfo>, i: nat) {
    exists b :: 0 <= b < |blks| && blks[b].page == i
  }

  /// After the first `n` blocks of the request: the pool's data is in place, and exactly the wanted
  /// blocks are collected, each once, with its record.
  ghost predicate Collected(e: Engine, start: nat, n: nat, results: map<nat, Record>, blks: seq<BlkInfo>, pages: seq<Option<Data>>) {
    && (forall i :: 0 <= i < n && i < |pages| ==> pages[i] == Query(e.pool.bufs, start + i))
    && (forall b :: 0 <= b < |blks| ==> blks[b].page < n && Wanted(e, start, results, blks[b].page))
    && (forall b :: 0 <= b < |blks| ==> start + blks[b].page in results && results[start + blks[b].page] == blks[b].record)
    && (forall a, b :: 0 <= a < b < |blks| ==> blks[a].page < blks[b].page)
    && (forall i :: 0 <= i < n && Wanted(e, start, results, i) ==> HasPage(blks, i))
  }

  lemma {:induction false} CollectOne(e: Engine, start: nat, i: nat, results: map<nat, Record>, blks: seq<BlkInfo>, pages: seq<Option<Data>>)
    requires Collected(e, start, i, results, blks, pages) && i < |pages|
    ensures var pages' := pages[i := Query(e.pool.bufs, start + i)];
      && (!Wanted(e, start, results, i) ==> Collected(e, start, i + 1, results, blks, pages'))
      && (Wanted(e, start, results, i) ==>
           Collected(e, start, i + 1, results, blks + [BlkInfo(start + i, results[start + i], i)], pages'))
  {
    if Wanted(e, start, results, i) {
      var blks' := blks + [BlkInfo(start + i, results[start + i], i)];
      assert blks'[|blks|].page == i;
      forall j | 0 <= j < i && HasPage(blks, j) ensures HasPage(blks', j) {
        var b :| 0 <= b < |blks| && blks[b].page == j;
        assert blks'[b].page == j;
      }
    }
    hide Query;
  }

  /// The first `n` collected blocks are opened with their own records and put on their own pages.
  ghost predicate Delivered(disk: map<nat, Sealed>, blks: seq<BlkInfo>, n: nat, before: seq<Option<Data>>, after: seq<Option<Data>>) {
    && |after| == |before|
    && (forall b :: 0 <= b < |blks| && b < n && blks[b].page < |after| ==> after[blks[b].page] == Opened(disk, blks[b].record))
    && (forall b :: n <= b < |blks| && blks[b].page < |after| ==> after[blks[b].page] == before[blks[b].page])
    && (forall i :: 0 <= i < |after| && !HasPage(blks, i) ==> after[i] == before[i])
  }

  lemma {:induction false} DeliverOne(disk: map<nat, Sealed>, blks: seq<BlkInfo>, n: nat, before: seq<Option<Data>>, after: seq<Option<Data>>)
    requires Delivered(disk, blks, n, before, after) && n < |blks| && blks[n].page < |after|
    requires forall a, b :: 0 <= a < b < |blks| ==> blks[a].page < blks[b].page
    ensures Delivered(disk, blks, n + 1, before, after[blks[n].page := Opened(disk, blks[n].record)])
  {
    assert HasPage(blks, blks[n].page);
    hide HasPage, Opened;
  }

  /// Where a run lies, and what it holds.
  lemma {:induction false} CutAt(pbas: seq<nat>, runs: seq<Run>, n: nat, r: nat)
    requires Cut(pbas, runs, n) && r < |runs|
    ensures runs[r].first == (if r == 0 then 0 else runs[r-1].last + 1) && runs[r].first <= runs[r].last < |pbas|
    ensures r == |runs| - 1 ==> runs[r].last + 1 == n
    ensures forall i :: runs[r].first <= i < runs[r].last ==> Rises(pbas, i)
  {
    var m := |runs| - 1;
    if r < m { CutAt(pbas, runs[..m], runs[m].first, r); }
    if r == m && m > 0 { CutAt(pbas, runs[..m], runs[m].first, m - 1); }
  }

  function Pbas(blks: seq<BlkInfo>): (r: seq<nat>)
    ensures |r| == |blks| && forall i :: 0 <= i < |blks| ==> r[i] == blks[i].record.pba
  {
    seq(|blks|, i requires 0 <= i < |blks| => blks[i].record.pba)
  }

  /// merge_read_io and decrypt_work: one request for the run, then every block from its own slot.
  method ReadRun(disk: map<nat, Sealed>, blks: seq<BlkInfo>, run: Run, pages0: seq<Option<Data>>, ghost before: seq<Option<Data>>)
    returns (pages: seq<Option<Data>>)
    requires run.first <= run.last < |blks| && Delivered(disk, blks, run.first, before, pages0)
    requires forall i :: run.first <= i <= run.last ==> Pbas(blks)[i] == Pbas(blks)[run.first] + (i - run.first)
    requires forall a, b :: 0 <= a < b < |blks| ==> blks[a].page < blks[b].page
    requires forall b :: 0 <= b < |blks| ==> blks[b].page < |before|
    ensures Delivered(disk, blks, run.last + 1, before, pages)
  {
    hide *;
    pages := pages0;
    DeliveredSize(disk, blks, run.first, before, pages);
    var count := run.last - run.first + 1;
    var buffer := Fetch(disk, blks[run.first].record.pba, count);
    for i := 0 to count
      invariant |pages| == |before| && Delivered(disk, blks, run.first + i, before, pages)
    {
      var b := blks[run.first + i];
      assert Pbas(blks)[run.first + i] == Pbas(blks)[run.first] + i;
      var plain := if buffer[i].Some? then Open(buffer[i].value, b.record.key, b.record.pba) else None;
      SlotIs(disk, b.record, buffer[i]);
      DeliverOne(disk, blks, run.first + i, before, pages);
      pages := pages[b.page := plain];
    }
  }

  /// A slot of the buffer, opened with the record of its block.
  lemma {:induction false} SlotIs(disk: map<nat, Sealed>, r: Record, slot: Option<Sealed>)
    requires slot == if r.pba in disk then Some(disk[r.pba]) else None
    ensures Opened(disk, r) == if slot.Some? then Open(slot.value, r.key, r.pba) else None
  {
    hide Open;
  }

  /// What a request delivers for one block: the pool's copy, else the opened block of its record.
  function PageOf(e: Engine, results: map<nat, Record>, k: nat): Option<Data> {
    var q := Query(e.pool.bufs, k);
    if q.Some? then q
    else if k in results && !Negative(results[k]) then Opened(e.disk, results[k])
    else None
  }

  /// With the index's own answer for a block this is the read of that block alone.
  lemma {:induction false} PageIsRead(e: Engine, results: map<nat, Record>, k: nat)
    requires Lookup(e.ix, k) == if k in results then Some(results[k]) else None
    ensures PageOf(e, results, k) == Read(e, k)
  {
    hide Query, Lookup, Open;
  }

  /// The second half of jindisk_do_read: the collected blocks are cut into runs, and each run fetched
  /// and opened.
  method FetchRuns(disk: map<nat, Sealed>, blks: seq<BlkInfo>, before: seq<Option<Data>>) returns (pages: seq<Option<Data>>)
    requires Placed(blks, |before|)
    ensures Delivered(disk, blks, |blks|, before, pages)
  {
    hide *;
    PlacedIs(blks, |before|);
    pages := before;
    var pbas := Pbas(blks);
    var runs := Coalesce(pbas);
    DeliverNone(disk, blks, pages);
    for r := 0 to |runs|
      invariant |pages| == |before|
      invariant Delivered(disk, blks, if r == 0 then 0 else runs[r-1].last + 1, before, pages)
    {
      CutAt(pbas, runs, |pbas|, r);
      RunAddresses(pbas, runs[r]);
      pages := ReadRun(disk, blks, runs[r], pages, before);
      DeliveredSize(disk, blks, runs[r].last + 1, before, pages);
    }
    CutEnd(pbas, runs);
  }

  /// The collected blocks have distinct pages of the request.
  ghost predicate Placed(blks: seq<BlkInfo>, count: nat) {
    && (forall b :: 0 <= b < |blks| ==> blks[b].page < count)
    && (forall a, b :: 0 <= a < b < |blks| ==> blks[a].page < blks[b].page)
  }

  lemma {:induction false} PlacedIs(blks: seq<BlkInfo>, count: nat)
    requires Placed(blks, count)
    ensures forall b :: 0 <= b < |blks| ==> blks[b].page < count
    ensures forall a, b :: 0 <= a < b < |blks| ==> blks[a].page < blks[b].page
  {
  }

  lemma {:induction false} CollectedPages(e: Engine, start: nat, n: nat, results: map<nat, Record>, blks: seq<BlkInfo>, pages: seq<Option<Data>>)
    requires Collected(e, start, n, results, blks, pages)
    ensures Placed(blks, n)
  {
  }

  lemma {:induction false} DeliverNone(disk: map<nat, Sealed>, blks: seq<BlkInfo>, pages: seq<Option<Data>>)
    ensures Delivered(disk, blks, 0, pages, pages)
  {
  }

  lemma {:induction false} DeliveredSize(disk: map<nat, Sealed>, blks: seq<BlkInfo>, n: nat, before: seq<Option<Data>>, after: seq<Option<Data>>)
    requires Delivered(disk, blks, n, before, after)
    ensures |after| == |before|
  {
  }

  lemma {:induction false} RunAddresses(pbas: seq<nat>, run: Run)
    requires run.first <= run.last < |pbas| && forall i :: run.first <= i < run.last ==> Rises(pbas, i)
    ensures forall i :: run.first <= i <= run.last ==> pbas[i] == pbas[run.first] + (i - run.first)
  {
    forall i | run.first <= i <= run.last ensures pbas[i] == pbas[run.first] + (i - run.first) {
      Climb(pbas, run.first, i);
    }
  }

  lemma {:induction false} CutEnd(pbas: seq<nat>, runs: seq<Run>)
    requires Cut(pbas, runs, |pbas|)
    ensures (if runs == [] then 0 else runs[|runs|-1].last + 1) == |pbas|
  {
  }

  lemma {:induction false} PageArrives(e: Engine, start: nat, count: nat, results: map<nat, Record>, blks: seq<BlkInfo>,
                                       before: seq<Option<Data>>, pages: seq<Option<Data>>, i: nat)
    requires i < count && |before| == |pages| == count
    requires Collected(e, start, count, results, blks, before) && Delivered(e.disk, blks, |blks|, before, pages)
    ensures pages[i] == PageOf(e, results, start + i)
  {
    assert before[i] == Query(e.pool.bufs, start + i);
    hide Query, Lookup;
    if Wanted(e, start, results, i) {
      var b :| 0 <= b < |blks| && blks[b].page == i;
    } else {
      assert !HasPage(blks, i);
    }
  }
}
