/** The invariants of the storage engine and the refinement of a plain `lba -> data` map. */
module EngineProofs {
  import opened Common
  import opened Index
  import opened Engine
  import opened EngineTree

  type Spec = map<nat, Data>

  // ---------------------------------------------------------------- invariants

  /// Shape of the tables, and: a segment with a set block bit has its own bit set.
  ghost predicate TablesOk(c: Config, e: Engine)
    requires c.Valid()
  {
    && |e.used| == c.nseg && |e.svt| == c.nseg && |e.rit| == c.nseg * c.bps
    && (forall s :: 0 <= s < c.nseg ==> e.used[s] <= Below(c.bps))
    && (forall s :: 0 <= s < c.nseg && e.used[s] != {} ==> e.svt[s])
  }

  /// One live record: its block bit is set and the reverse index names its lba.
  ghost predicate Owns(c: Config, e: Engine, k: nat, pba: nat)
    requires c.Valid()
  {
    pba < |e.rit| && UsedBit(c, e.used, pba) && e.rit[pba] == k
  }

  /// Allocation safety.
  ghost predicate AllocOk(c: Config, e: Engine)
    requires c.Valid()
  {
    && TablesOk(c, e)
    && LayersOk(e.ix)
    && forall k :: Live(e.ix, k).Some? ==> Owns(c, e, k, Live(e.ix, k).value.pba)
  }

  /// No newest record points at the address.
  ghost predicate NotLive(e: Engine, pba: nat) {
    forall k :: Live(e.ix, k).Some? ==> Live(e.ix, k).value.pba != pba
  }

  ghost predicate PoolOk(c: Config, p: Pool) {
    && |p.bufs| == c.slots && p.pending < c.slots
    && |p.bufs[0].blocks| < c.bps
    && (forall a :: 0 <= a < c.slots ==> |p.bufs[a].blocks| <= c.bps)
    && (forall a, k :: 0 <= a < c.slots && k in p.bufs[a].blocks ==> k < MAX_KEY)
  }

  /// One live record: the device holds a block sealed for it, with the right contents
  /// unless a newer version still waits in the pool.
  ghost predicate Holds(e: Engine, spec: Spec, k: nat, r: Record) {
    && r.pba in e.disk
    && e.disk[r.pba].key == r.key && e.disk[r.pba].seqno == r.pba
    && (!Unflushed(e.pool, k) ==> k in spec && spec[k] == e.disk[r.pba].plain)
  }

  ghost predicate DataOk(c: Config, e: Engine, spec: Spec) {
    && PoolOk(c, e.pool)
    && (forall k :: Live(e.ix, k).Some? ==> Holds(e, spec, k, Live(e.ix, k).value))
    && (forall k :: k in spec ==> Unflushed(e.pool, k) || Live(e.ix, k).Some?)
    && (forall k :: Query(e.pool.bufs, k).Some? ==> k in spec && spec[k] == Query(e.pool.bufs, k).value)
  }

  ghost predicate Inv(c: Config, e: Engine, spec: Spec)
    requires c.Valid()
  {
    AllocOk(c, e) && DataOk(c, e, spec)
  }

  // ---------------------------------------------------------------- pool facts

  lemma {:induction false} QueryIn(bufs: seq<Buf>, k: nat, a: nat)
    requires a < |bufs| && k in bufs[a].blocks
    ensures Query(bufs, k).Some?
  {
    if a > 0 && k !in bufs[0].blocks {
      QueryIn(bufs[1..], k, a - 1);
    }
  }

  lemma {:induction false} QueryWhere(bufs: seq<Buf>, k: nat) returns (a: nat)
    requires Query(bufs, k).Some?
    ensures a < |bufs| && k in bufs[a].blocks && Query(bufs, k).value == bufs[a].blocks[k]
    ensures forall i :: 0 <= i < a ==> k !in bufs[i].blocks
  {
    if k in bufs[0].blocks {
      a := 0;
    } else {
      a := QueryWhere(bufs[1..], k);
      a := a + 1;
      assert forall i :: 0 < i < a ==> bufs[i] == bufs[1..][i-1];
    }
  }

  lemma {:induction false} QueryFirst(bufs: seq<Buf>, k: nat, a: nat)
    requires a < |bufs| && k in bufs[a].blocks
    requires forall i :: 0 <= i < a ==> k !in bufs[i].blocks
    ensures Query(bufs, k) == Some(bufs[a].blocks[k])
  {
    if a > 0 {
      assert k !in bufs[0].blocks;
      QueryFirst(bufs[1..], k, a - 1);
    }
  }

  /// Dropping the oldest buffer keeps every answer that did not come from it.
  lemma {:induction false} QueryDropLast(bufs: seq<Buf>, k: nat)
    requires |bufs| >= 1
    ensures Query(bufs[..|bufs|-1], k).Some? ==> Query(bufs[..|bufs|-1], k) == Query(bufs, k)
  {
    if Query(bufs[..|bufs|-1], k).Some? {
      var a := QueryWhere(bufs[..|bufs|-1], k);
      assert forall i :: 0 <= i < a ==> k !in bufs[i].blocks by {
        forall i | 0 <= i < a ensures k !in bufs[i].blocks { assert bufs[i] == bufs[..|bufs|-1][i]; }
      }
      QueryFirst(bufs, k, a);
    }
  }

  // ---------------------------------------------------------------- release and put

  /// Releasing a block that is not anyone's newest record keeps allocation safety.
  lemma {:induction false} ReleaseOk(c: Config, e: Engine, lba: nat, pba: nat)
    requires c.Valid() && AllocOk(c, e)
    requires Live(e.ix, lba).Some? ==> Live(e.ix, lba).value.pba != pba
    ensures AllocOk(c, Release(c, e, lba, pba))
  {
    var e1 := Release(c, e, lba, pba);
    if pba < |e.rit| && e.rit[pba] == lba {
      PbaBound(c, pba);
      forall k | Live(e1.ix, k).Some?
        ensures Owns(c, e1, k, Live(e1.ix, k).value.pba)
      {
        var p := Live(e.ix, k).value.pba;
        assert Owns(c, e, k, p);
        assert p != pba;
        SamePba(c, p, pba);
      }
    }
  }

  /// What a put hands back for release was the newest record.
  lemma {:induction false} ReplacedIsLive(l: Layers, k: nat, v: Option<Record>)
    requires LayersOk(l)
    requires v.Some? ==> Unseen(l, k, v.value.pba)
    ensures var prev := Replaced(l.mem, k, v);
      prev.Some? ==> Live(l, k) == prev && v.Some? && prev.value.pba != v.value.pba
  {
    assert Levels(l)[0] == l.mem;
  }

  /// State after a put whose new value, if any, owns its address.
  lemma {:induction false} PutRecordOk(c: Config, e: Engine, lba: nat, v: Option<Record>)
    requires c.Valid() && AllocOk(c, e) && lba < MAX_KEY
    requires PutRecord(c, e, lba, v).ok
    requires v.Some? ==> Unseen(e.ix, lba, v.value.pba) && !Negative(v.value)
    requires v.Some? ==> UsedBit(c, e.used, v.value.pba) && v.value.pba < |e.rit|
    requires v.Some? ==> NotLive(e, v.value.pba)
    ensures var e1 := PutRecord(c, e, lba, v);
      && TablesOk(c, e1) && LayersOk(e1.ix)
      && e1.ix == Put(e.ix, c.cap, lba, v)
      && Live(e1.ix, lba) == v
      && (forall k :: k != lba ==> Live(e1.ix, k) == Live(e.ix, k))
      && (forall k :: k != lba && Live(e1.ix, k).Some? ==> Owns(c, e1, k, Live(e1.ix, k).value.pba))
      && (v.Some? ==> UsedBit(c, e1.used, v.value.pba))
      && e1.pool == e.pool && e1.disk == e.disk && e1.svt == e.svt && e.ok
      && (forall p :: UsedBit(c, e.used, p) && NotLive(e, p) ==> UsedBit(c, e1.used, p))
  {
    PutLive(e.ix, c.cap, lba, v);
    PutOk(e.ix, c.cap, lba, v);
    ReplacedIsLive(e.ix, lba, v);
    hide Live, Lookup, Put, LayersOk, Unseen, Replaced;
    var e1 := PutRecord(c, e, lba, v);
    var prev := Replaced(e.ix.mem, lba, v);
    forall k | k != lba && Live(e1.ix, k).Some?
      ensures Owns(c, e1, k, Live(e1.ix, k).value.pba)
    {
      assert Live(e.ix, k) == Live(e1.ix, k);
      var p := Live(e.ix, k).value.pba;
      assert Owns(c, e, k, p);
      if prev.Some? && prev.value.pba < |e.rit| && e.rit[prev.value.pba] == lba {
        assert p != prev.value.pba;
        SamePba(c, p, prev.value.pba);
      }
    }
    if prev.Some? {
      forall p | UsedBit(c, e.used, p) && NotLive(e, p)
        ensures UsedBit(c, e1.used, p)
      {
        SamePba(c, p, prev.value.pba);
      }
      PbaBound(c, prev.value.pba);
      SamePba(c, v.value.pba, prev.value.pba);
    }
  }

  /// Issuing an owned, unused address to an lba keeps allocation safety.
  lemma {:induction false} IssueOk(c: Config, e: Engine, lba: nat, pba: nat, key: nat, d: Data)
    requires c.Valid() && AllocOk(c, e) && lba < MAX_KEY
    requires Issue(c, e, lba, pba, key, d).ok
    requires UsedBit(c, e.used, pba) && pba < |e.rit|
    requires NotLive(e, pba)
    ensures var e1 := Issue(c, e, lba, pba, key, d);
      && AllocOk(c, e1) && e.ok
      && Live(e1.ix, lba) == Some(Record(pba, key))
      && (forall k :: k != lba ==> Live(e1.ix, k) == Live(e.ix, k))
      && e1.pool == e.pool && e1.svt == e.svt
      && e1.disk == e.disk[pba := Sealed(key, pba, d)]
      && (forall p :: UsedBit(c, e.used, p) && NotLive(e, p) ==> UsedBit(c, e1.used, p))
  {
    var v := Some(Record(pba, key));
    var e0 := e.(ok := e.ok && Unseen(e.ix, lba, pba));
    assert AllocOk(c, e0);
    PutRecordOk(c, e0, lba, v);
    var e1 := Issue(c, e, lba, pba, key, d);
    forall k | Live(e1.ix, k).Some?
      ensures Owns(c, e1, k, Live(e1.ix, k).value.pba)
    {
      if k != lba {
        assert Live(e1.ix, k) == Live(e.ix, k);
      }
    }
  }

  // ---------------------------------------------------------------- pushing a block

  lemma {:induction false} PushFront(c: Config, e: Engine, spec: Spec, lba: nat, d: Data)
    requires c.Valid() && DataOk(c, e, spec) && lba < MAX_KEY
    ensures var bufs := [e.pool.bufs[0].(blocks := e.pool.bufs[0].blocks[lba := d])] + e.pool.bufs[1..];
      && |bufs| == c.slots
      && (forall k :: Query(bufs, k) == if k == lba then Some(d) else Query(e.pool.bufs, k))
      && (forall k :: Unflushed(Pool(bufs, e.pool.pending), k) <==> k == lba || Unflushed(e.pool, k))
      && (forall a, k :: 0 <= a < c.slots && k in bufs[a].blocks ==> k < MAX_KEY)
      && (forall a :: 0 <= a < c.slots ==> |bufs[a].blocks| <= c.bps)
  {
    var cur := e.pool.bufs[0].(blocks := e.pool.bufs[0].blocks[lba := d]);
    assert cur.blocks.Keys == e.pool.bufs[0].blocks.Keys + {lba};
    var bufs := [cur] + e.pool.bufs[1..];
    assert bufs[1..] == e.pool.bufs[1..];
    forall k
      ensures Unflushed(Pool(bufs, e.pool.pending), k) <==> k == lba || Unflushed(e.pool, k)
    {
      if k == lba {
        assert k in bufs[0].blocks;
      } else {
        assert forall a :: 0 <= a < c.slots ==> (k in bufs[a].blocks <==> k in e.pool.bufs[a].blocks);
      }
    }
  }

  lemma {:induction false} RotateOk(bufs: seq<Buf>, pending: nat, newKey: nat, k: nat)
    requires |bufs| >= 1 && pending + 1 < |bufs|
    ensures var r := RotatePool(bufs, newKey);
      && (Unflushed(Pool(r, pending + 1), k) <==> Unflushed(Pool(bufs, pending), k))
      && (Query(r, k).Some? ==> Query(r, k) == Query(bufs, k))
  {
    var r := RotatePool(bufs, newKey);
    assert r[1..] == bufs[..|bufs|-1];
    QueryDropLast(bufs, k);
    if Unflushed(Pool(bufs, pending), k) {
      var a :| 0 <= a <= pending && a < |bufs| && k in bufs[a].blocks;
      assert k in r[a + 1].blocks;
    }
    if Unflushed(Pool(r, pending + 1), k) {
      var a :| 0 <= a <= pending + 1 && a < |r| && k in r[a].blocks;
      assert k in bufs[a - 1].blocks;
    }
  }

  /// A pool that answers like the old one with `lba` overwritten serves the updated map.
  lemma {:induction false} PoolUpdate(c: Config, e: Engine, spec: Spec, lba: nat, d: Data, p: Pool)
    requires DataOk(c, e, spec) && PoolOk(c, p)
    requires forall k :: Unflushed(p, k) <==> k == lba || Unflushed(e.pool, k)
    requires forall k :: Query(p.bufs, k).Some? ==>
      (Query(p.bufs, k) == if k == lba then Some(d) else Query(e.pool.bufs, k))
    ensures forall ok :: DataOk(c, e.(pool := p, ok := ok), spec[lba := d])
  {
    hide Live, Query, Unflushed;
    forall ok, k | Live(e.ix, k).Some?
      ensures Holds(e.(pool := p, ok := ok), spec[lba := d], k, Live(e.ix, k).value)
    {
      assert Holds(e, spec, k, Live(e.ix, k).value);
    }
  }

  /// Pushing a block updates the map at its lba and nowhere else.
  lemma {:induction false} PushOk(c: Config, e: Engine, spec: Spec, lba: nat, d: Data, newKey: nat)
    requires c.Valid() && DataOk(c, e, spec) && lba < MAX_KEY
    requires Push(c, e, lba, d, newKey).ok
    ensures DataOk(c, Push(c, e, lba, d, newKey), spec[lba := d])
    ensures var e1 := Push(c, e, lba, d, newKey);
      e.ok && e1 == e.(pool := e1.pool)
  {
    PushFront(c, e, spec, lba, d);
    var e1 := Push(c, e, lba, d, newKey);
    var bufs := [e.pool.bufs[0].(blocks := e.pool.bufs[0].blocks[lba := d])] + e.pool.bufs[1..];
    hide Query, Unflushed, Live;
    if |bufs[0].blocks| >= c.bps {
      forall k
        ensures Unflushed(e1.pool, k) <==> Unflushed(Pool(bufs, e.pool.pending), k)
        ensures Query(e1.pool.bufs, k).Some? ==> Query(e1.pool.bufs, k) == Query(bufs, k)
      {
        RotateOk(bufs, e.pool.pending, newKey, k);
      }
      assert forall a :: 0 < a < c.slots ==> e1.pool.bufs[a] == bufs[a - 1];
    }
    PoolUpdate(c, e, spec, lba, d, e1.pool);
  }

  // ---------------------------------------------------------------- flushing

  /// One issued block of a buffer that is being flushed.
  lemma {:induction false} IssueData(c: Config, e: Engine, spec: Spec, lba: nat, pba: nat, key: nat, d: Data)
    requires c.Valid() && Inv(c, e, spec) && lba < MAX_KEY
    requires Issue(c, e, lba, pba, key, d).ok
    requires UsedBit(c, e.used, pba) && pba < |e.rit|
    requires NotLive(e, pba)
    requires !Unflushed(e.pool, lba) ==> lba in spec && spec[lba] == d
    ensures Inv(c, Issue(c, e, lba, pba, key, d), spec)
  {
    IssueOk(c, e, lba, pba, key, d);
    var e1 := Issue(c, e, lba, pba, key, d);
    forall k | Live(e1.ix, k).Some?
      ensures Holds(e1, spec, k, Live(e1.ix, k).value)
    {
      if k != lba {
        assert Holds(e, spec, k, Live(e.ix, k).value);
      }
    }
  }

  /// What a flush knows about the buffer it writes.
  ghost predicate Flushing(e: Engine, order: seq<nat>, b: Buf) {
    && (forall j :: 0 <= j < |order| ==> order[j] in b.blocks && order[j] < MAX_KEY)
    && (forall j :: 0 <= j < |order| ==> Unflushed(e.pool, order[j]))
    && (forall j, j' :: 0 <= j < j' < |order| ==> order[j] < order[j'])
  }

  /// The newest record of `k` leads to these contents.
  ghost predicate Reaches(e: Engine, k: nat, d: Data) {
    var r := Live(e.ix, k);
    r.Some? && r.value.pba in e.disk && e.disk[r.value.pba].plain == d
  }

  /// The blocks that a flush has written so far are live with the buffer's contents.
  ghost predicate Delivered(e: Engine, order: seq<nat>, b: Buf, i: nat)
    requires i <= |order|
    requires forall j :: 0 <= j < |order| ==> order[j] in b.blocks
  {
    forall j :: 0 <= j < i ==> Reaches(e, order[j], b.blocks[order[j]])
  }

  lemma {:induction false} IssueDelivers(c: Config, e: Engine, order: seq<nat>, b: Buf, i: nat, pba: nat)
    requires c.Valid() && AllocOk(c, e) && i < |order| && Flushing(e, order, b)
    requires Issue(c, e, order[i], pba, b.key, b.blocks[order[i]]).ok
    requires UsedBit(c, e.used, pba) && pba < |e.rit| && NotLive(e, pba)
    requires Delivered(e, order, b, i)
    ensures Delivered(Issue(c, e, order[i], pba, b.key, b.blocks[order[i]]), order, b, i + 1)
  {
    IssueOk(c, e, order[i], pba, b.key, b.blocks[order[i]]);
    var e1 := Issue(c, e, order[i], pba, b.key, b.blocks[order[i]]);
    forall j | 0 <= j < i + 1
      ensures Reaches(e1, order[j], b.blocks[order[j]])
    {
      if j < i {
        assert order[j] != order[i];
        assert Reaches(e, order[j], b.blocks[order[j]]);
      }
    }
  }

  /// The offsets of a segment from `i` on are reserved for the flush.
  ghost predicate Reserved(c: Config, e: Engine, seg: nat, i: nat)
    requires c.Valid()
  {
    forall o: nat :: i <= o < c.bps ==> UsedBit(c, e.used, PbaOf(c, seg, o)) && NotLive(e, PbaOf(c, seg, o))
  }

  lemma {:induction false} AllocSegmentOk(c: Config, e: Engine, spec: Spec, seg: nat)
    requires c.Valid() && Inv(c, e, spec) && seg < c.nseg && !e.svt[seg]
    ensures Inv(c, AllocSegment(c, e, seg), spec) && Reserved(c, AllocSegment(c, e, seg), seg, 0)
  {
    var e1 := AllocSegment(c, e, seg);
    forall o: nat | o < c.bps
      ensures UsedBit(c, e1.used, PbaOf(c, seg, o)) && NotLive(e1, PbaOf(c, seg, o))
    {
      DivMod(c.bps, seg, o);
      forall k | Live(e.ix, k).Some? ensures Live(e.ix, k).value.pba != PbaOf(c, seg, o) {
        assert Owns(c, e, k, Live(e.ix, k).value.pba);
      }
    }
    forall k | Live(e1.ix, k).Some? ensures Owns(c, e1, k, Live(e1.ix, k).value.pba) {
      assert Owns(c, e, k, Live(e.ix, k).value.pba);
    }
    forall k | Live(e1.ix, k).Some? ensures Holds(e1, spec, k, Live(e1.ix, k).value) {
      assert Holds(e, spec, k, Live(e.ix, k).value);
    }
  }

  /// Writing one block to its reserved offset.
  lemma {:induction false} FlushOneOk(c: Config, e: Engine, spec: Spec, order: seq<nat>, b: Buf, seg: nat, i: nat)
    requires c.Valid() && Inv(c, e, spec) && seg < c.nseg
    requires i < |order| <= c.bps && Flushing(e, order, b)
    requires Reserved(c, e, seg, i) && Delivered(e, order, b, i)
    requires Issue(c, e, order[i], PbaOf(c, seg, i), b.key, b.blocks[order[i]]).ok
    ensures var e1 := Issue(c, e, order[i], PbaOf(c, seg, i), b.key, b.blocks[order[i]]);
      Inv(c, e1, spec) && Delivered(e1, order, b, i + 1) && Reserved(c, e1, seg, i + 1) && e1.pool == e.pool && e.ok
  {
    var lba, pba, d := order[i], PbaOf(c, seg, i), b.blocks[order[i]];
    var e1 := Issue(c, e, lba, pba, b.key, d);
    DivMod(c.bps, seg, i);
    PbaBound(c, pba);
    IssueOk(c, e, lba, pba, b.key, d);
    IssueData(c, e, spec, lba, pba, b.key, d);
    IssueDelivers(c, e, order, b, i, pba);
    forall o: nat | i + 1 <= o < c.bps
      ensures UsedBit(c, e1.used, PbaOf(c, seg, o)) && NotLive(e1, PbaOf(c, seg, o))
    {
      forall k | Live(e1.ix, k).Some? ensures Live(e1.ix, k).value.pba != PbaOf(c, seg, o) {
        if k != lba { assert Live(e1.ix, k) == Live(e.ix, k); }
      }
    }
  }

  /// Flushing a queued buffer into a fresh segment, block by block.
  lemma {:induction false} FlushUpToOk(c: Config, e: Engine, spec: Spec, order: seq<nat>, b: Buf, seg: nat, i: nat)
    requires c.Valid() && Inv(c, e, spec) && seg < c.nseg && !e.svt[seg]
    requires i <= |order| <= c.bps && Flushing(e, order, b)
    requires FlushUpTo(c, e, order, b, seg, i).ok
    ensures var e1 := FlushUpTo(c, e, order, b, seg, i);
      e.ok && Inv(c, e1, spec) && Delivered(e1, order, b, i) && e1.pool == e.pool && Reserved(c, e1, seg, i)
  {
    hide AllocOk, DataOk, Reaches, Issue, Unflushed, UsedBit, Reserved, NotLive;
    if i == 0 {
      AllocSegmentOk(c, e, spec, seg);
    } else {
      var e0 := FlushUpTo(c, e, order, b, seg, i - 1);
      IssueMonitor(c, e0, order[i-1], PbaOf(c, seg, i - 1), b.key, b.blocks[order[i-1]]);
      FlushUpToOk(c, e, spec, order, b, seg, i - 1);
      FlushOneOk(c, e0, spec, order, b, seg, i - 1);
    }
  }

  lemma {:induction false} IssueMonitor(c: Config, e: Engine, lba: nat, pba: nat, key: nat, d: Data)
    requires c.Valid()
    ensures Issue(c, e, lba, pba, key, d).ok ==> e.ok
    ensures Issue(c, e, lba, pba, key, d).pool == e.pool
  {
  }

  lemma {:induction false} TakeBlockOk(c: Config, e: Engine, spec: Spec, pba: nat)
    requires c.Valid() && Inv(c, e, spec) && TreeInv(c, e, None) && MayLog(c, e, pba)
    ensures var e1 := TakeBlockState(c, e, pba);
      Inv(c, e1, spec) && UsedBit(c, e1.used, pba) && pba < |e1.rit| && NotLive(e1, pba) && e1.ix == e.ix
  {
    InRange(c, e, pba);
    TakeTree(c, e, pba);
    PbaBound(c, pba);
    var e1 := TakeBlockState(c, e, pba);
    hide TakeBlockState, MayLog, TreeInv;
    TakenOk(c, e, e1, spec, pba);
  }

  lemma {:induction false} TakenOk(c: Config, e: Engine, e1: Engine, spec: Spec, pba: nat)
    requires c.Valid() && Inv(c, e, spec) && pba < c.nseg * c.bps && !UsedBit(c, e.used, pba)
    requires SegOf(c, pba) < c.nseg && OffOf(c, pba) < c.bps && |e1.svt| == |e.svt|
    requires SegOf(c, pba) < |e1.svt| && e1.svt[SegOf(c, pba)]
    requires forall s :: 0 <= s < |e.svt| && e.svt[s] ==> e1.svt[s]
    requires e1 == e.(svt := e1.svt, used := SetBit(c, e.used, pba), tree := e1.tree, logging := e1.logging)
    ensures Inv(c, e1, spec) && UsedBit(c, e1.used, pba) && pba < |e1.rit| && NotLive(e1, pba)
  {
    forall k | Live(e1.ix, k).Some?
      ensures Owns(c, e1, k, Live(e1.ix, k).value.pba) && Live(e1.ix, k).value.pba != pba
    {
      assert Owns(c, e, k, Live(e.ix, k).value.pba);
    }
    forall k | Live(e1.ix, k).Some? ensures Holds(e1, spec, k, Live(e1.ix, k).value) {
      assert Holds(e, spec, k, Live(e.ix, k).value);
    }
  }

  /// One block of threaded logging.
  lemma {:induction false} LogOneOk(c: Config, e: Engine, spec: Spec, order: seq<nat>, b: Buf, pba: nat, i: nat)
    requires c.Valid() && Inv(c, e, spec) && TreeInv(c, e, None) && MayLog(c, e, pba)
    requires i < |order| && Flushing(e, order, b)
    requires Delivered(e, order, b, i)
    requires LogBlock(c, e, order[i], Some(pba), b.key, b.blocks[order[i]]).ok
    ensures var e1 := LogBlock(c, e, order[i], Some(pba), b.key, b.blocks[order[i]]);
      Inv(c, e1, spec) && Delivered(e1, order, b, i + 1) && e1.pool == e.pool
  {
    var e1 := TakeBlockState(c, e, pba);
    TakeBlockOk(c, e, spec, pba);
    TakenData(c, e, pba);
    hide TakeBlockState, MayLog, TreeInv;
    assert Delivered(e1, order, b, i) by {
      forall j | 0 <= j < i ensures Reaches(e1, order[j], b.blocks[order[j]]) {
        assert Reaches(e, order[j], b.blocks[order[j]]);
      }
    }
    IssueData(c, e1, spec, order[i], pba, b.key, b.blocks[order[i]]);
    IssueDelivers(c, e1, order, b, i, pba);
  }

  lemma {:induction false} TakenData(c: Config, e: Engine, pba: nat)
    requires c.Valid()
    ensures var e1 := TakeBlockState(c, e, pba); e1.pool == e.pool && e1.ix == e.ix && e1.disk == e.disk && e1.ok == e.ok
  {
  }

  lemma {:induction false} LogUpToOk(c: Config, e: Engine, spec: Spec, order: seq<nat>, b: Buf, wheres: seq<Option<nat>>, i: nat)
    requires c.Valid() && Inv(c, e, spec) && TreeInv(c, e, None)
    requires i <= |order| == |wheres| && Flushing(e, order, b)
    requires Answers(c, e, order, b, wheres)
    requires LogUpTo(c, e, order, b, wheres, i).ok
    ensures var e1 := LogUpTo(c, e, order, b, wheres, i);
      e.ok && Inv(c, e1, spec) && Delivered(e1, order, b, i) && e1.pool == e.pool
  {
    hide AllocOk, DataOk, Reaches, LogBlock, Issue, Unflushed, UsedBit, TreeInv, MayLog, NoSpace;
    if i > 0 {
      var e0 := LogUpTo(c, e, order, b, wheres, i - 1);
      LogMonitor(c, e0, order[i-1], wheres[i-1], b.key, b.blocks[order[i-1]]);
      LogUpToOk(c, e, spec, order, b, wheres, i - 1);
      LogUpToTree(c, e, order, b, wheres, i - 1);
      assert Answer(c, e0, wheres[i-1]);
      LogOneOk(c, e0, spec, order, b, wheres[i-1].value, i - 1);
    }
  }

  lemma {:induction false} LogMonitor(c: Config, e: Engine, lba: nat, where: Option<nat>, key: nat, d: Data)
    requires c.Valid()
    ensures LogBlock(c, e, lba, where, key, d).ok ==> e.ok && where.Some?
  {
    if where.Some? {
      TakenData(c, e, where.value);
      IssueMonitor(c, TakeBlockState(c, e, where.value), lba, where.value, key, d);
    }
    hide TakeBlockState, Issue;
  }

  /// Once every block of the oldest queued buffer is delivered, the buffer counts as flushed.
  lemma {:induction false} Dequeue(c: Config, e: Engine, spec: Spec, order: seq<nat>)
    requires c.Valid() && Inv(c, e, spec) && 0 < e.pool.pending < |e.pool.bufs|
    requires IsOrder(order, e.pool.bufs[e.pool.pending].blocks.Keys)
    requires Delivered(e, order, e.pool.bufs[e.pool.pending], |order|)
    ensures Inv(c, e.(pool := e.pool.(pending := e.pool.pending - 1)), spec)
  {
    var p := e.pool.pending;
    var b := e.pool.bufs[p];
    var e1 := e.(pool := e.pool.(pending := p - 1));
    forall k | Unflushed(e.pool, k) && !Unflushed(e1.pool, k)
      ensures Query(e.pool.bufs, k).Some? && Reaches(e, k, Query(e.pool.bufs, k).value)
    {
      LastCopy(e.pool, k);
      var j :| 0 <= j < |order| && order[j] == k;
      assert Reaches(e, order[j], b.blocks[order[j]]);
    }
    DequeueData(c, e, spec);
  }

  /// A block that stops being unflushed has its only unflushed copy in the oldest queued buffer.
  lemma {:induction false} LastCopy(p: Pool, k: nat)
    requires 0 < p.pending < |p.bufs|
    requires Unflushed(p, k) && !Unflushed(p.(pending := p.pending - 1), k)
    ensures k in p.bufs[p.pending].blocks && Query(p.bufs, k) == Some(p.bufs[p.pending].blocks[k])
  {
    var a :| 0 <= a <= p.pending && a < |p.bufs| && k in p.bufs[a].blocks;
    forall i | 0 <= i < p.pending ensures k !in p.bufs[i].blocks {
    }
    QueryFirst(p.bufs, k, p.pending);
  }

  lemma {:induction false} DequeueData(c: Config, e: Engine, spec: Spec)
    requires c.Valid() && Inv(c, e, spec) && 0 < e.pool.pending < |e.pool.bufs|
    requires var e1 := e.(pool := e.pool.(pending := e.pool.pending - 1));
      forall k :: Unflushed(e.pool, k) && !Unflushed(e1.pool, k)
        ==> Query(e.pool.bufs, k).Some? && Reaches(e, k, Query(e.pool.bufs, k).value)
    ensures Inv(c, e.(pool := e.pool.(pending := e.pool.pending - 1)), spec)
  {
    var e1 := e.(pool := e.pool.(pending := e.pool.pending - 1));
    forall k | Live(e1.ix, k).Some? ensures Holds(e1, spec, k, Live(e1.ix, k).value) {
      assert Holds(e, spec, k, Live(e.ix, k).value);
    }
    forall k | k in spec ensures Unflushed(e1.pool, k) || Live(e1.ix, k).Some? {
      if Unflushed(e.pool, k) && !Unflushed(e1.pool, k) { assert Reaches(e, k, Query(e.pool.bufs, k).value); }
    }
    forall k | Live(e1.ix, k).Some? ensures Owns(c, e1, k, Live(e1.ix, k).value.pba) {
      assert Owns(c, e, k, Live(e.ix, k).value.pba);
    }
  }

  lemma {:induction false} OrderSize(order: seq<nat>, s: set<nat>)
    requires IsOrder(order, s)
    ensures |order| == |s|
  {
    if order != [] {
      var n := |order| - 1;
      forall x | x in s - {order[n]} ensures x in order[..n] {
        var i :| 0 <= i < |order| && order[i] == x;
        assert order[..n][i] == x;
      }
      OrderSize(order[..n], s - {order[n]});
    } else {
      assert forall x :: x in s ==> x in order;
    }
  }

  lemma {:induction false} FlushedBuffer(c: Config, e: Engine, order: seq<nat>)
    requires c.Valid() && PoolOk(c, e.pool) && 0 < e.pool.pending
    requires IsOrder(order, e.pool.bufs[e.pool.pending].blocks.Keys)
    ensures Flushing(e, order, e.pool.bufs[e.pool.pending]) && |order| <= c.bps
  {
    var b := e.pool.bufs[e.pool.pending];
    OrderSize(order, b.blocks.Keys);
    assert |b.blocks.Keys| == |b.blocks|;
    forall j | 0 <= j < |order| ensures Unflushed(e.pool, order[j]) {
      assert order[j] in e.pool.bufs[e.pool.pending].blocks;
    }
  }

  /// Flushing the oldest queued buffer, either way, changes nothing a reader can see.
  lemma {:induction false} FlushOk(c: Config, e: Engine, spec: Spec, order: seq<nat>, place: Place)
    requires c.Valid() && Inv(c, e, spec) && 0 < e.pool.pending
    requires IsOrder(order, e.pool.bufs[e.pool.pending].blocks.Keys)
    requires place.Segment? ==> place.seg < c.nseg && !e.svt[place.seg]
    requires TreeInv(c, e, None)
    requires place.Logging? ==>
      (|place.wheres| == |order| && Answers(c, e, order, e.pool.bufs[e.pool.pending], place.wheres))
    requires Flush(c, e, order, place).ok
    ensures Inv(c, Flush(c, e, order, place), spec) && e.ok
  {
    var b := e.pool.bufs[e.pool.pending];
    FlushedBuffer(c, e, order);
    hide AllocOk, DataOk, Reaches, Unflushed, UsedBit, IsOrder, FlushUpTo, LogUpTo, Answers, Delivered, Flushing, TreeInv;
    match place
    case Segment(seg) =>
      FlushUpToOk(c, e, spec, order, b, seg, |order|);
      Dequeue(c, FlushUpTo(c, e, order, b, seg, |order|), spec, order);
    case Logging(wheres) =>
      LogUpToOk(c, e, spec, order, b, wheres, |order|);
      Dequeue(c, LogUpTo(c, e, order, b, wheres, |order|), spec, order);
  }
}
