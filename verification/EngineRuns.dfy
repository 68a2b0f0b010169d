/** Garbage collection, compaction, and whole runs of the storage engine. */
module EngineRuns {
  import opened Common
  import opened Index
  import opened Engine
  import opened EngineProofs
  import opened EngineTree
  import S = Segments

  // ---------------------------------------------------------------- garbage collection

  lemma {:induction false} LiveKeyBound(l: Layers, k: nat)
    requires LayersOk(l) && Lookup(l, k).Some?
    ensures k < MAX_KEY
  {
  }

  /// A negative put releases nothing and removes only its own key from the live records.
  lemma {:induction false} PutNone(c: Config, e: Engine, k: nat)
    requires c.Valid() && LayersOk(e.ix) && k < MAX_KEY && PutRecord(c, e, k, None).ok
    ensures var e1 := PutRecord(c, e, k, None);
      && e.ok && e1 == e.(ix := e1.ix) && LayersOk(e1.ix) && Live(e1.ix, k).None?
      && forall j :: j != k ==> Live(e1.ix, j) == Live(e.ix, j)
  {
    PutLive(e.ix, c.cap, k, None);
    PutOk(e.ix, c.cap, k, None);
  }

  /// A block whose reverse-index entry leads to a record elsewhere is nobody's live block.
  lemma {:induction false} OutOfDate(c: Config, e: Engine, pba: nat)
    requires c.Valid() && AllocOk(c, e) && pba < |e.rit|
    requires var r := Lookup(e.ix, KeyOf(e.rit[pba])); r.None? || r.value.pba != pba
    ensures NotLive(e, pba)
  {
    forall k | Live(e.ix, k).Some? ensures Live(e.ix, k).value.pba != pba {
      assert Owns(c, e, k, Live(e.ix, k).value.pba);
      LiveKeyBound(e.ix, k);
    }
  }

  /// Otherwise the entry names exactly the lba that owns the block.
  lemma {:induction false} UpToDate(c: Config, e: Engine, pba: nat)
    requires c.Valid() && AllocOk(c, e) && pba < |e.rit|
    requires Lookup(e.ix, KeyOf(e.rit[pba])).Some? && Lookup(e.ix, KeyOf(e.rit[pba])).value.pba == pba
    ensures KeyOf(e.rit[pba]) == e.rit[pba] < MAX_KEY
    ensures Live(e.ix, e.rit[pba]) == Lookup(e.ix, e.rit[pba])
    ensures forall k :: k != e.rit[pba] && Live(e.ix, k).Some? ==> Live(e.ix, k).value.pba != pba
  {
    var k := KeyOf(e.rit[pba]);
    LiveKeyBound(e.ix, k);
    assert Live(e.ix, k).Some?;
    assert Owns(c, e, k, pba);
    forall j | j != k && Live(e.ix, j).Some? ensures Live(e.ix, j).value.pba != pba {
      assert Owns(c, e, j, Live(e.ix, j).value.pba);
    }
  }

  /// Dropping the owner of a block and its reverse-index entry together.
  lemma {:induction false} DropOwner(c: Config, e: Engine, e2: Engine, pba: nat, lba: nat)
    requires c.Valid() && AllocOk(c, e) && pba < |e.rit|
    requires e2.rit == e.rit[pba := INF_ADDR] && e2.used == e.used && e2.svt == e.svt && LayersOk(e2.ix)
    requires Live(e2.ix, lba).None?
    requires forall j :: j != lba ==> Live(e2.ix, j) == Live(e.ix, j)
    requires forall k :: k != lba && Live(e.ix, k).Some? ==> Live(e.ix, k).value.pba != pba
    ensures AllocOk(c, e2) && NotLive(e2, pba)
  {
    hide Live, LayersOk;
    forall k | Live(e2.ix, k).Some? ensures Owns(c, e2, k, Live(e2.ix, k).value.pba) {
      assert Owns(c, e, k, Live(e.ix, k).value.pba);
    }
  }

  /// Re-queueing the block that just lost its record restores the whole map.
  lemma {:induction false} RequeueOk(c: Config, e: Engine, e2: Engine, spec: Spec, lba: nat, d: Data, newKey: nat)
    requires c.Valid() && DataOk(c, e, spec) && lba < MAX_KEY
    requires e2.pool == e.pool && e2.disk == e.disk && Live(e2.ix, lba).None?
    requires forall j :: j != lba ==> Live(e2.ix, j) == Live(e.ix, j)
    requires !Unflushed(e.pool, lba) ==> lba in spec && spec[lba] == d
    requires GcPush(c, e2, lba, d, newKey).ok
    ensures DataOk(c, GcPush(c, e2, lba, d, newKey), spec)
    ensures var e3 := GcPush(c, e2, lba, d, newKey); e2.ok && e3 == e2.(pool := e3.pool)
  {
    hide *;
    PoolNotEmpty(c, e, spec);
    var e3 := GcPush(c, e2, lba, d, newKey);
    PushedOrNot(c, e2, lba, d, newKey);
    if Query(e2.pool.bufs, lba).Some? {
      QueuedKeeps(c, e, e3, spec, lba);
    } else {
      UnflushedIsQueried(e.pool, lba);
      var rest := spec - {lba};
      LostRecord(c, e, e2, spec, lba);
      PushOk(c, e2, rest, lba, d, newKey);
      assert rest[lba := d] == spec;
    }
  }

  lemma {:induction false} PoolNotEmpty(c: Config, e: Engine, spec: Spec)
    requires c.Valid() && DataOk(c, e, spec)
    ensures |e.pool.bufs| >= 1
  {
  }

  lemma {:induction false} PushedOrNot(c: Config, e: Engine, lba: nat, d: Data, newKey: nat)
    requires |e.pool.bufs| >= 1 && GcPush(c, e, lba, d, newKey).ok
    ensures Query(e.pool.bufs, lba).Some? ==> GcPush(c, e, lba, d, newKey) == e && Unflushed(e.pool, lba)
    ensures Query(e.pool.bufs, lba).None? ==> GcPush(c, e, lba, d, newKey) == Push(c, e, lba, d, newKey)
  {
    hide Query, Unflushed, Push;
  }

  /// A block with a copy still to be flushed does not need its record.
  lemma {:induction false} QueuedKeeps(c: Config, e: Engine, e2: Engine, spec: Spec, lba: nat)
    requires c.Valid() && DataOk(c, e, spec) && e2.pool == e.pool && e2.disk == e.disk
    requires Live(e2.ix, lba).None? && (forall j :: j != lba ==> Live(e2.ix, j) == Live(e.ix, j))
    requires Unflushed(e.pool, lba)
    ensures DataOk(c, e2, spec)
  {
    hide Live, Query, Unflushed;
    forall k | Live(e2.ix, k).Some? ensures Holds(e2, spec, k, Live(e2.ix, k).value) {
      assert Holds(e, spec, k, Live(e.ix, k).value);
    }
  }

  /// Without a copy in the pool, the block that lost its record is gone from the map.
  lemma {:induction false} LostRecord(c: Config, e: Engine, e2: Engine, spec: Spec, lba: nat)
    requires c.Valid() && DataOk(c, e, spec) && e2.pool == e.pool && e2.disk == e.disk
    requires Live(e2.ix, lba).None? && (forall j :: j != lba ==> Live(e2.ix, j) == Live(e.ix, j))
    requires Query(e.pool.bufs, lba).None? && !Unflushed(e.pool, lba) && lba in spec
    ensures DataOk(c, e2, spec - {lba})
  {
    hide Live, Query, Unflushed;
    var rest := spec - {lba};
    forall k | Live(e2.ix, k).Some? ensures Holds(e2, rest, k, Live(e2.ix, k).value) {
      assert Holds(e, spec, k, Live(e.ix, k).value);
    }
  }

  lemma {:induction false} UnflushedIsQueried(p: Pool, k: nat)
    ensures Unflushed(p, k) ==> Query(p.bufs, k).Some?
  {
    if Unflushed(p, k) {
      var a :| 0 <= a <= p.pending && a < |p.bufs| && k in p.bufs[a].blocks;
      QueryIn(p.bufs, k, a);
    }
  }

  lemma {:induction false} GcMonitor(c: Config, e: Engine, pba: nat, newKey: nat)
    requires c.Valid() && |e.pool.bufs| >= 1
    ensures GcBlock(c, e, pba, newKey).ok ==> e.ok
  {
  }

  /// What collecting one block guarantees.
  ghost predicate BlockCollected(c: Config, e: Engine, e1: Engine, spec: Spec, pba: nat)
    requires c.Valid()
  {
    && Inv(c, e1, spec) && NotLive(e1, pba) && e1.used == e.used && e1.svt == e.svt
    && forall p :: NotLive(e, p) ==> NotLive(e1, p)
  }

  lemma {:induction false} CollectStale(c: Config, e: Engine, spec: Spec, pba: nat)
    requires c.Valid() && Inv(c, e, spec) && pba < |e.rit|
    requires var r := Lookup(e.ix, KeyOf(e.rit[pba])); r.None? || r.value.pba != pba
    ensures BlockCollected(c, e, e.(rit := e.rit[pba := INF_ADDR]), spec, pba)
  {
    var e1 := e.(rit := e.rit[pba := INF_ADDR]);
    OutOfDate(c, e, pba);
    hide Live, Lookup, LayersOk, Query;
    forall k | Live(e1.ix, k).Some?
      ensures Owns(c, e1, k, Live(e1.ix, k).value.pba) && Holds(e1, spec, k, Live(e1.ix, k).value)
    {
      assert Owns(c, e, k, Live(e.ix, k).value.pba) && Holds(e, spec, k, Live(e.ix, k).value);
    }
  }

  lemma {:induction false} InvParts(c: Config, e: Engine, spec: Spec)
    requires c.Valid()
    ensures Inv(c, e, spec) <==> AllocOk(c, e) && DataOk(c, e, spec)
    ensures Inv(c, e, spec) ==> LayersOk(e.ix) && |e.pool.bufs| >= 1
  {
  }

  lemma {:induction false} HoldsAt(c: Config, e: Engine, spec: Spec, k: nat)
    requires DataOk(c, e, spec) && Live(e.ix, k).Some?
    ensures var r := Live(e.ix, k).value;
      && r.pba in e.disk && e.disk[r.pba].key == r.key && e.disk[r.pba].seqno == r.pba
      && (!Unflushed(e.pool, k) ==> k in spec && spec[k] == e.disk[r.pba].plain)
  {
    assert Holds(e, spec, k, Live(e.ix, k).value);
  }

  lemma {:induction false} CollectMoved(c: Config, e: Engine, spec: Spec, pba: nat, newKey: nat)
    requires c.Valid() && Inv(c, e, spec) && pba < |e.rit| && |e.pool.bufs| >= 1
    requires var r := Lookup(e.ix, KeyOf(e.rit[pba])); r.Some? && r.value.pba == pba
    requires GcBlock(c, e, pba, newKey).ok
    ensures BlockCollected(c, e, GcBlock(c, e, pba, newKey), spec, pba)
  {
    hide *;
    InvParts(c, e, spec);
    var lba, r := e.rit[pba], Lookup(e.ix, KeyOf(e.rit[pba])).value;
    var e1 := e.(rit := e.rit[pba := INF_ADDR]);
    UpToDate(c, e, pba);
    HoldsAt(c, e, spec, lba);
    GcMatch(c, e, pba, newKey, r);
    var e2, d := PutRecord(c, e1, lba, None), e.disk[pba].plain;
    PutPool(c, e1, lba);
    GcPushMonitor(c, e2, lba, d, newKey);
    PutNone(c, e1, lba);
    DropOwner(c, e, e2, pba, lba);
    RequeueOk(c, e, e2, spec, lba, d, newKey);
    var e3 := GcPush(c, e2, lba, d, newKey);
    SameAlloc(c, e2, e3);
    InvParts(c, e3, spec);
    CollectedIs(c, e, e2, e3, spec, pba, lba);
  }

  lemma {:induction false} PutPool(c: Config, e: Engine, k: nat)
    requires c.Valid()
    ensures PutRecord(c, e, k, None).pool == e.pool
  {
  }

  lemma {:induction false} CollectedIs(c: Config, e: Engine, e2: Engine, e3: Engine, spec: Spec, pba: nat, lba: nat)
    requires c.Valid() && Inv(c, e3, spec) && NotLive(e2, pba) && e3.used == e.used && e3.svt == e.svt
    requires Live(e2.ix, lba).None? && forall j :: j != lba ==> Live(e2.ix, j) == Live(e.ix, j)
    requires forall p :: NotLive(e2, p) <==> NotLive(e3, p)
    ensures BlockCollected(c, e, e3, spec, pba)
  {
    hide Live, Inv;
  }

  /// One block of the victim: the map is kept, and nothing live points at the block any more.
  lemma {:induction false} GcBlockOk(c: Config, e: Engine, spec: Spec, pba: nat, newKey: nat)
    requires c.Valid() && Inv(c, e, spec) && pba < |e.rit|
    requires GcBlock(c, e, pba, newKey).ok
    ensures BlockCollected(c, e, GcBlock(c, e, pba, newKey), spec, pba)
  {
    var r := Lookup(e.ix, KeyOf(e.rit[pba]));
    if r.None? || r.value.pba != pba {
      CollectStale(c, e, spec, pba);
    } else {
      CollectMoved(c, e, spec, pba, newKey);
    }
    hide Inv, Lookup, NotLive, BlockCollected, GcPush, PutRecord;
  }

  lemma {:induction false} GcMatch(c: Config, e: Engine, pba: nat, newKey: nat, r: Record)
    requires c.Valid() && |e.pool.bufs| >= 1 && pba < |e.rit| && e.rit[pba] < MAX_KEY
    requires Lookup(e.ix, e.rit[pba]) == Some(r) && r.pba == pba
    requires pba in e.disk && e.disk[pba].key == r.key && e.disk[pba].seqno == pba
    ensures var e1 := e.(rit := e.rit[pba := INF_ADDR]);
      GcBlock(c, e, pba, newKey)
      == GcPush(c, PutRecord(c, e1, e.rit[pba], None), e.rit[pba], e.disk[pba].plain, newKey)
  {
    var e1 := e.(rit := e.rit[pba := INF_ADDR]);
    assert PutRecord(c, e1, e.rit[pba], None).disk == e.disk;
  }

  lemma {:induction false} GcPushMonitor(c: Config, e: Engine, lba: nat, d: Data, newKey: nat)
    requires |e.pool.bufs| >= 1
    ensures GcPush(c, e, lba, d, newKey).ok ==> e.ok
  {
  }

  /// Allocation safety does not depend on the pool.
  lemma {:induction false} SameAlloc(c: Config, e: Engine, e1: Engine)
    requires c.Valid() && AllocOk(c, e) && e1 == e.(pool := e1.pool, tree := e1.tree, ok := e1.ok)
    ensures AllocOk(c, e1)
    ensures forall p :: NotLive(e, p) <==> NotLive(e1, p)
  {
    forall k | Live(e1.ix, k).Some? ensures Owns(c, e1, k, Live(e1.ix, k).value.pba) {
      assert Owns(c, e, k, Live(e.ix, k).value.pba);
    }
  }

  /// The blocks of the victim below offset `o` are processed: none of them is live.
  ghost predicate Cleared(c: Config, e: Engine, seg: nat, bits: set<nat>, o: nat) {
    forall i: nat :: i < o && i in bits ==> NotLive(e, PbaOf(c, seg, i))
  }

  lemma {:induction false} GcUpToOk(c: Config, e: Engine, spec: Spec, seg: nat, bits: set<nat>, newKey: nat, o: nat)
    requires c.Valid() && Inv(c, e, spec) && seg < c.nseg && o <= c.bps
    requires GcUpTo(c, e, seg, bits, newKey, o).ok
    ensures var e1 := GcUpTo(c, e, seg, bits, newKey, o);
      && e.ok && Inv(c, e1, spec) && Cleared(c, e1, seg, bits, o)
      && e1.used == e.used && e1.svt == e.svt
  {
    hide AllocOk, NotLive, GcBlock, Query, Unflushed, Live;
    if o > 0 {
      var e0 := GcUpTo(c, e, seg, bits, newKey, o - 1);
      var pba := PbaOf(c, seg, o - 1);
      GcMonitor(c, e0, pba, newKey);
      GcUpToOk(c, e, spec, seg, bits, newKey, o - 1);
      if o - 1 in bits {
        DivMod(c.bps, seg, o - 1);
        PbaBound(c, pba);
        AllocShape(c, e0);
        GcBlockOk(c, e0, spec, pba, newKey);
      }
    }
  }

  lemma {:induction false} AllocShape(c: Config, e: Engine)
    requires c.Valid() && AllocOk(c, e)
    ensures |e.rit| == c.nseg * c.bps && |e.used| == c.nseg && |e.svt| == c.nseg
  {
  }

  /// A segment none of whose set bits is live can be handed back.
  lemma {:induction false} ReturnOk(c: Config, e: Engine, spec: Spec, seg: nat)
    requires c.Valid() && Inv(c, e, spec) && seg < c.nseg
    requires Cleared(c, e, seg, e.used[seg], c.bps)
    ensures Inv(c, ReturnSegment(e, seg), spec)
  {
    var e1 := ReturnSegment(e, seg);
    forall k | Live(e1.ix, k).Some?
      ensures Owns(c, e1, k, Live(e1.ix, k).value.pba) && Holds(e1, spec, k, Live(e1.ix, k).value)
    {
      var p := Live(e.ix, k).value.pba;
      assert Owns(c, e, k, p) && Holds(e, spec, k, Live(e.ix, k).value);
      PbaBound(c, p);
      assert p == PbaOf(c, SegOf(c, p), OffOf(c, p));
      assert OffOf(c, p) in e.used[seg] ==> NotLive(e, PbaOf(c, seg, OffOf(c, p)));
    }
  }

  /// A garbage-collection round on any popped victim, but for one of the logging segment, keeps every
  /// invariant.
  lemma {:induction false} GcOk(c: Config, e: Engine, spec: Spec, seg: nat, bits: set<nat>, newKey: nat)
    requires c.Valid() && Inv(c, e, spec) && TreeInv(c, e, None) && Pops(e, seg, bits)
    requires Gc(c, e, seg, bits, newKey).ok
    ensures Inv(c, Gc(c, e, seg, bits, newKey), spec) && e.ok && seg < c.nseg && bits == e.used[seg] && e.logging != Some(seg)
  {
    var e0 := AfterPop(e).(ok := e.ok && e.logging != Some(seg));
    PopTree(c, e, seg, bits);
    GcUpToMonitor(c, e0, seg, bits, newKey, c.bps);
    AllocShape(c, e);
    SameInv(c, e, e0, spec);
    GcUpToOk(c, e0, spec, seg, bits, newKey, c.bps);
    hide TreeInv, Pops, Inv, GcUpTo, AfterPop, Cleared, ReturnSegment;
    ReturnOk(c, GcUpTo(c, e0, seg, bits, newKey, c.bps), spec, seg);
  }

  lemma {:induction false} SameInv(c: Config, e: Engine, e1: Engine, spec: Spec)
    requires c.Valid() && Inv(c, e, spec) && e1 == e.(tree := e1.tree, ok := e1.ok)
    ensures Inv(c, e1, spec)
  {
    SameAlloc(c, e, e1);
    DataFrame(c, e, e1, spec);
  }

  lemma {:induction false} GcUpToMonitor(c: Config, e: Engine, seg: nat, bits: set<nat>, newKey: nat, o: nat)
    requires c.Valid() && |e.pool.bufs| >= 1
    ensures GcUpTo(c, e, seg, bits, newKey, o).ok ==> e.ok
  {
    if o > 0 {
      GcMonitor(c, GcUpTo(c, e, seg, bits, newKey, o - 1), PbaOf(c, seg, o - 1), newKey);
      GcUpToMonitor(c, e, seg, bits, newKey, o - 1);
    }
  }

  // ---------------------------------------------------------------- compaction

  /// A level-1 value covered by a level-0 value is not the newest record of its key.
  lemma {:induction false} OverwrittenIsOld(l: Layers, a: Entry)
    requires LayersOk(l) && Attempt(TableOf(l.l0), l.l1, a)
    ensures Live(l, a.key).Some? ==> Live(l, a.key).value.pba != a.rec.pba
  {
    var lv, k := Levels(l), a.key;
    if l.l1[k].neg {
      assert a.rec.pba == INF_ADDR;
    } else if k in l.mem {
      assert Val(lv[0], k).Some? ==> Val(lv[0], k).value.pba != Val(lv[3], k).value.pba;
    } else if l.immPending && k in TableOf(l.imm) {
      assert Val(lv[1], k).Some? ==> Val(lv[1], k).value.pba != Val(lv[3], k).value.pba;
    } else {
      assert Val(lv[2], k).Some? ==> Val(lv[2], k).value.pba != Val(lv[3], k).value.pba;
    }
  }

  lemma {:induction false} ReleaseAllOk(c: Config, e: Engine, spec: Spec, att: seq<Entry>)
    requires c.Valid() && Inv(c, e, spec)
    requires forall a :: a in att ==> Attempt(TableOf(e.ix.l0), e.ix.l1, a)
    ensures var e1 := ReleaseAll(c, e, att);
      Inv(c, e1, spec) && e1 == e.(rit := e1.rit, used := e1.used, tree := e1.tree)
  {
    hide AllocOk, DataOk, Release, Attempt;
    if att != [] {
      var n := |att| - 1;
      assert forall i :: 0 <= i < n ==> att[..n][i] == att[i];
      ReleaseAllOk(c, e, spec, att[..n]);
      ReleaseOne(c, ReleaseAll(c, e, att[..n]), spec, att[n]);
    }
  }

  lemma {:induction false} ReleaseOne(c: Config, e: Engine, spec: Spec, a: Entry)
    requires c.Valid() && Inv(c, e, spec) && Attempt(TableOf(e.ix.l0), e.ix.l1, a)
    ensures var e1 := Release(c, e, a.key, a.rec.pba);
      Inv(c, e1, spec) && e1 == e.(rit := e1.rit, used := e1.used, tree := e1.tree)
  {
    OverwrittenIsOld(e.ix, a);
    ReleaseOk(c, e, a.key, a.rec.pba);
    hide Live, Lookup, AllocOk, DataOk, LayersOk, Attempt;
    DataFrame(c, e, Release(c, e, a.key, a.rec.pba), spec);
  }

  /// The data invariant reads only the pool, the index and the device.
  lemma {:induction false} DataFrame(c: Config, e: Engine, e1: Engine, spec: Spec)
    requires DataOk(c, e, spec) && e1.pool == e.pool && e1.ix == e.ix && e1.disk == e.disk
    ensures DataOk(c, e1, spec)
  {
    hide Live, Query, Unflushed;
    forall j | Live(e1.ix, j).Some? ensures Holds(e1, spec, j, Live(e1.ix, j).value) {
      assert Holds(e, spec, j, Live(e.ix, j).value);
    }
  }

  /// A minor compaction with its nested major one keeps every invariant.
  lemma {:induction false} CompactOk(c: Config, e: Engine, spec: Spec, l1': Table, att: seq<Entry>)
    requires c.Valid() && Inv(c, e, spec) && e.ix.immPending && CompactionOk(e.ix, l1', att)
    ensures Inv(c, Compact(c, e, l1', att), spec)
  {
    ReleaseAllOk(c, e, spec, att);
    var e1 := ReleaseAll(c, e, att);
    MinorOk(e.ix, l1');
    forall k ensures Live(Minor(e.ix, l1'), k) == Live(e.ix, k) { MinorLive(e.ix, l1', k); }
    SameLive(c, e1, spec, Minor(e.ix, l1'));
  }

  /// The release of this address for this key is on the list.
  ghost predicate Listed(att: seq<Entry>, k: nat, p: nat) {
    exists a :: a in att && a.key == k && a.rec.pba == p
  }

  /// The address is that of an old level-1 record which level 0 overwrites, and the reverse index still
  /// names the record's block.
  ghost predicate Retired(rit: seq<nat>, l: Layers, p: nat) {
    p < |rit| && Overwritten(TableOf(l.l0), l.l1, rit[p]) && LastRecord(l.l1[rit[p]]).pba == p
  }

  /// What the releases leave: a listed address that still belongs to its key loses its entry and its bit,
  /// every other one keeps both.
  lemma {:induction false} ReleaseAllExact(c: Config, e: Engine, att: seq<Entry>, p: nat)
    requires c.Valid() && p < |e.rit|
    ensures var e1, gone := ReleaseAll(c, e, att), Listed(att, e.rit[p], p);
      && |e1.rit| == |e.rit| && e1.rit[p] == (if gone then INF_ADDR else e.rit[p])
      && (UsedBit(c, e1.used, p) <==> UsedBit(c, e.used, p) && !gone)
  {
    if att != [] {
      var n := |att| - 1;
      var e0 := ReleaseAll(c, e, att[..n]);
      ReleaseAllExact(c, e, att[..n], p);
      OneListed(att, e.rit[p], p);
      ReleaseExact(c, e0, att[n].key, att[n].rec.pba, p);
      hide Release, Listed, UsedBit;
    }
  }

  lemma {:induction false} OneListed(att: seq<Entry>, k: nat, p: nat)
    requires att != []
    ensures var a := att[|att|-1]; Listed(att, k, p) <==> Listed(att[..|att|-1], k, p) || (a.key == k && a.rec.pba == p)
  {
    var n := |att| - 1;
    assert att == att[..n] + [att[n]];
  }

  lemma {:induction false} ReleaseExact(c: Config, e: Engine, k: nat, q: nat, p: nat)
    requires c.Valid() && p < |e.rit|
    ensures var e1, gone := Release(c, e, k, q), q == p && e.rit[p] == k;
      && |e1.rit| == |e.rit| && e1.rit[p] == (if gone then INF_ADDR else e.rit[p])
      && (UsedBit(c, e1.used, p) <==> UsedBit(c, e.used, p) && !gone)
  {
    SamePba(c, p, q);
    hide ReturnTree;
  }

  /// A compaction frees exactly the retired addresses: their entries are reset and their bits are clear;
  /// every other address keeps its entry and its bit.
  lemma {:induction false} CompactExact(c: Config, e: Engine, l1': Table, att: seq<Entry>, p: nat)
    requires c.Valid() && CompactionOk(e.ix, l1', att) && p < |e.rit|
    ensures var e1, gone := Compact(c, e, l1', att), Retired(e.rit, e.ix, p);
      && |e1.rit| == |e.rit| && e1.rit[p] == (if gone then INF_ADDR else e.rit[p])
      && (UsedBit(c, e1.used, p) <==> UsedBit(c, e.used, p) && !gone)
  {
    ReleaseAllExact(c, e, att, p);
    RetiredListed(e.rit, e.ix, l1', att, p);
    hide ReleaseAll, CompactionOk, Listed, Retired, UsedBit;
  }

  lemma {:induction false} RetiredListed(rit: seq<nat>, l: Layers, l1': Table, att: seq<Entry>, p: nat)
    requires CompactionOk(l, l1', att) && p < |rit|
    ensures Listed(att, rit[p], p) <==> Retired(rit, l, p)
  {
    var k := rit[p];
    if Retired(rit, l, p) { assert Entry(k, LastRecord(l.l1[k])) in att; }
    hide MergedValues, TableOk;
  }

  lemma {:induction false} SameLive(c: Config, e: Engine, spec: Spec, l: Layers)
    requires c.Valid() && Inv(c, e, spec) && LayersOk(l)
    requires forall k :: Live(l, k) == Live(e.ix, k)
    ensures Inv(c, e.(ix := l), spec)
  {
    var e1 := e.(ix := l);
    hide Live, Query, LayersOk;
    forall k | Live(e1.ix, k).Some?
      ensures Owns(c, e1, k, Live(e1.ix, k).value.pba) && Holds(e1, spec, k, Live(e1.ix, k).value)
    {
      assert Owns(c, e, k, Live(e.ix, k).value.pba) && Holds(e, spec, k, Live(e.ix, k).value);
    }
  }

  // ---------------------------------------------------------------- reading

  /// Under the invariant a read is a lookup in the map.
  lemma {:induction false} ReadIsSpec(c: Config, e: Engine, spec: Spec, k: nat)
    requires c.Valid() && Inv(c, e, spec)
    ensures Read(e, k) == if k in spec then Some(spec[k]) else None
  {
    UnflushedIsQueried(e.pool, k);
    if Query(e.pool.bufs, k).None? && Live(e.ix, k).Some? {
      assert Holds(e, spec, k, Live(e.ix, k).value);
    }
  }

  // ---------------------------------------------------------------- runs

  datatype Step =
    | Write(lba: nat, data: Data, newKey: nat)
    | FlushOldest(order: seq<nat>, place: Place)
    | Collect(seg: nat, bits: set<nat>, gcKey: nat)
    | NothingToCollect
    | Compaction(l1': Table, att: seq<Entry>)

  /// When a handler can run, and what its environment (allocator, merge) may answer.
  ghost predicate Enabled(c: Config, e: Engine, s: Step)
    requires c.Valid()
  {
    match s
    case Write(lba, _, _) => lba < MAX_KEY && |e.pool.bufs| >= 1
    case FlushOldest(order, place) =>
      && 0 < e.pool.pending < |e.pool.bufs|
      && IsOrder(order, e.pool.bufs[e.pool.pending].blocks.Keys)
      && (place.Segment? ==> place.seg < c.nseg && place.seg < |e.svt| && !e.svt[place.seg]
                             && place.seg < |e.used| && e.used[place.seg] == {})
      && (place.Logging? ==>
           (S.AllSet(e.svt) && |place.wheres| == |order| && Answers(c, e, order, e.pool.bufs[e.pool.pending], place.wheres)))
    case Collect(seg, bits, _) => |e.pool.bufs| >= 1 && Pops(e, seg, bits)
    case NothingToCollect => Poppable(e.tree, e.logging) == []
    case Compaction(l1', att) => e.ix.immPending && CompactionOk(e.ix, l1', att)
  }

  ghost function Apply(c: Config, e: Engine, s: Step): Engine
    requires c.Valid() && Enabled(c, e, s)
  {
    match s
    case Write(lba, d, newKey) => Push(c, e, lba, d, newKey)
    case FlushOldest(order, place) => Flush(c, e, order, place)
    case Collect(seg, bits, gcKey) => Gc(c, e, seg, bits, gcKey)
    case NothingToCollect => AfterPop(e)
    case Compaction(l1', att) => Compact(c, e, l1', att)
  }

  /// The map a user sees: only writes change it.
  function SpecStep(spec: Spec, s: Step): Spec {
    if s.Write? then spec[s.lba := s.data] else spec
  }

  function SpecAfter(steps: seq<Step>): Spec {
    if steps == [] then map[] else SpecStep(SpecAfter(steps[..|steps|-1]), steps[|steps|-1])
  }

  /// A freshly formatted device: no record, no set bit, the reverse index zeroed.
  function Init(c: Config, key: nat): Engine {
    Engine(Pool(seq(c.slots, i => Buf(key, map[])), 0),
           Layers(map[], 0, None, false, None, map[]),
           seq(c.nseg * c.bps, i => 0), seq(c.nseg, i => {}), [], None, seq(c.nseg, i => false), map[], true)
  }

  ghost predicate Execution(c: Config, key: nat, es: seq<Engine>, steps: seq<Step>)
    requires c.Valid()
  {
    && |es| == |steps| + 1 && es[0] == Init(c, key)
    && forall i :: 0 <= i < |steps| ==> Enabled(c, es[i], steps[i]) && es[i+1] == Apply(c, es[i], steps[i])
  }

  lemma {:induction false} StepOk(c: Config, e: Engine, spec: Spec, s: Step)
    requires c.Valid() && Inv(c, e, spec) && TreeInv(c, e, None) && Enabled(c, e, s) && Apply(c, e, s).ok
    ensures Inv(c, Apply(c, e, s), SpecStep(spec, s))
  {
    match s
    case Write(lba, d, newKey) =>
      PushOk(c, e, spec, lba, d, newKey);
      SameAlloc(c, e, Push(c, e, lba, d, newKey));
    case FlushOldest(order, place) => FlushOk(c, e, spec, order, place);
    case Collect(seg, bits, gcKey) => GcOk(c, e, spec, seg, bits, gcKey);
    case NothingToCollect => SameInv(c, e, AfterPop(e), spec);
    case Compaction(l1', att) => CompactOk(c, e, spec, l1', att);
  }

  /// The agreement of bitmaps, tree and segment bits does not depend on the guards but for one: a
  /// collection must not hand back the logging segment.
  lemma {:induction false} StepTree(c: Config, e: Engine, s: Step)
    requires c.Valid() && TreeInv(c, e, None) && Enabled(c, e, s)
    ensures TreeInv(c, Apply(c, e, s), None) <==> !(s.Collect? && e.logging == Some(s.seg))
  {
    match s
    case Write(lba, d, newKey) => SameTree(c, e, Push(c, e, lba, d, newKey), None);
    case FlushOldest(order, place) => FlushTree(c, e, order, place);
    case Collect(seg, bits, gcKey) => GcTree(c, e, seg, bits, gcKey);
    case NothingToCollect => SkipTree(c, e);
    case Compaction(l1', att) => CompactTree(c, e, l1', att);
  }

  lemma {:induction false} FlushTree(c: Config, e: Engine, order: seq<nat>, place: Place)
    requires c.Valid() && TreeInv(c, e, None) && Enabled(c, e, FlushOldest(order, place))
    ensures TreeInv(c, Flush(c, e, order, place), None)
  {
    var b := e.pool.bufs[e.pool.pending];
    hide TreeInv, Answers, FlushUpTo, LogUpTo;
    match place
    case Segment(seg) =>
      FlushUpToTree(c, e, order, b, seg, |order|);
      SameTree(c, FlushUpTo(c, e, order, b, seg, |order|), Flush(c, e, order, place), None);
    case Logging(wheres) =>
      LogUpToTree(c, e, order, b, wheres, |order|);
      SameTree(c, LogUpTo(c, e, order, b, wheres, |order|), Flush(c, e, order, place), None);
  }

  lemma {:induction false} GcTree(c: Config, e: Engine, seg: nat, bits: set<nat>, newKey: nat)
    requires c.Valid() && TreeInv(c, e, None) && |e.pool.bufs| >= 1 && Pops(e, seg, bits)
    ensures TreeInv(c, Gc(c, e, seg, bits, newKey), None) <==> e.logging != Some(seg)
  {
    var e0 := AfterPop(e).(ok := e.ok && e.logging != Some(seg));
    PopTree(c, e, seg, bits);
    SameTree(c, AfterPop(e), e0, Some(seg));
    var e1 := GcUpTo(c, e0, seg, bits, newKey, c.bps);
    GcUpToSpace(c, e0, seg, bits, newKey, c.bps);
    SameTree(c, e0, e1, Some(seg));
    hide TreeInv, Pops, GcUpTo, AfterPop, ReturnSegment;
    ReturnTreeIff(c, e1, seg);
    PopLogging(e);
  }

  lemma {:induction false} PopLogging(e: Engine)
    ensures AfterPop(e).logging == e.logging
  {
  }

  lemma {:induction false} CompactTree(c: Config, e: Engine, l1': Table, att: seq<Entry>)
    requires c.Valid() && TreeInv(c, e, None) && CompactionOk(e.ix, l1', att)
    ensures TreeInv(c, Compact(c, e, l1', att), None)
  {
    ReleaseAllTree(c, e, att);
    SameTree(c, ReleaseAll(c, e, att), Compact(c, e, l1', att), None);
    hide TreeInv, ReleaseAll, CompactionOk;
  }

  lemma {:induction false} ApplyMonitor(c: Config, e: Engine, spec: Spec, s: Step)
    requires c.Valid() && Enabled(c, e, s) && Apply(c, e, s).ok
    ensures e.ok
  {
    match s
    case Write(_, _, _) =>
    case FlushOldest(order, place) =>
      var b := e.pool.bufs[e.pool.pending];
      if place.Segment? {
        FlushUpToMonitor(c, e, order, b, place.seg, |order|);
      } else {
        LogUpToMonitor(c, e, order, b, place.wheres, |order|);
      }
    case Collect(seg, bits, gcKey) =>
      GcUpToMonitor(c, AfterPop(e).(ok := e.ok && e.logging != Some(seg)), seg, bits, gcKey, c.bps);
    case NothingToCollect =>
    case Compaction(l1', att) => ReleaseAllMonitor(c, e, att);
  }

  lemma {:induction false} FlushUpToMonitor(c: Config, e: Engine, order: seq<nat>, b: Buf, seg: nat, i: nat)
    requires c.Valid() && i <= |order| && forall j :: 0 <= j < |order| ==> order[j] in b.blocks
    ensures FlushUpTo(c, e, order, b, seg, i).ok ==> e.ok
  {
    if i > 0 {
      IssueMonitor(c, FlushUpTo(c, e, order, b, seg, i - 1), order[i-1], PbaOf(c, seg, i - 1), b.key, b.blocks[order[i-1]]);
      FlushUpToMonitor(c, e, order, b, seg, i - 1);
    }
  }

  lemma {:induction false} LogUpToMonitor(c: Config, e: Engine, order: seq<nat>, b: Buf, wheres: seq<Option<nat>>, i: nat)
    requires c.Valid() && i <= |order| == |wheres|
    requires forall j :: 0 <= j < |order| ==> order[j] in b.blocks
    ensures LogUpTo(c, e, order, b, wheres, i).ok ==> e.ok
  {
    if i > 0 {
      LogMonitor(c, LogUpTo(c, e, order, b, wheres, i - 1), order[i-1], wheres[i-1], b.key, b.blocks[order[i-1]]);
      LogUpToMonitor(c, e, order, b, wheres, i - 1);
    }
  }

  lemma {:induction false} ReleaseAllMonitor(c: Config, e: Engine, att: seq<Entry>)
    requires c.Valid()
    ensures ReleaseAll(c, e, att).ok == e.ok
  {
    if att != [] { ReleaseAllMonitor(c, e, att[..|att|-1]); }
  }

  lemma {:induction false} InitInv(c: Config, key: nat)
    requires c.Valid()
    ensures Inv(c, Init(c, key), map[])
  {
    var e := Init(c, key);
    forall k ensures Query(e.pool.bufs, k).None? {
      if Query(e.pool.bufs, k).Some? { var a := QueryWhere(e.pool.bufs, k); }
    }
  }

  lemma {:induction false} InitOk(c: Config, key: nat)
    requires c.Valid()
    ensures Inv(c, Init(c, key), map[]) && TreeInv(c, Init(c, key), None)
  {
    InitInv(c, key);
    NothingUsed(c, Init(c, key));
    hide Inv, TreeInv;
  }

  lemma {:induction false} NeverLogging(c: Config, e: Engine, s: Step)
    requires c.Valid() && Enabled(c, e, s) && Apply(c, e, s).ok
    ensures !(s.Collect? && e.logging == Some(s.seg))
  {
    if s.Collect? {
      GcUpToMonitor(c, AfterPop(e).(ok := e.ok && e.logging != Some(s.seg)), s.seg, s.bits, s.gcKey, c.bps);
    }
  }

  /// In every run whose guards held throughout, the engine invariant holds at every state.
  lemma {:induction false} RunInv(c: Config, key: nat, es: seq<Engine>, steps: seq<Step>)
    requires c.Valid() && Execution(c, key, es, steps) && es[|steps|].ok
    ensures Inv(c, es[|steps|], SpecAfter(steps)) && TreeInv(c, es[|steps|], None)
  {
    var n := |steps|;
    if n == 0 {
      InitOk(c, key);
    } else {
      hide Inv, Apply, Enabled, Init, TreeInv;
      ApplyMonitor(c, es[n-1], map[], steps[n-1]);
      assert Execution(c, key, es[..n], steps[..n-1]);
      RunInv(c, key, es[..n], steps[..n-1]);
      StepOk(c, es[n-1], SpecAfter(steps[..n-1]), steps[n-1]);
      StepTree(c, es[n-1], steps[n-1]);
      NeverLogging(c, es[n-1], steps[n-1]);
    }
  }

  /// End to end: after any guarded run, reading any lba returns the data last written to it,
  /// and nothing for an lba that was never written.
  lemma {:induction false} EndToEnd(c: Config, key: nat, es: seq<Engine>, steps: seq<Step>, k: nat)
    requires c.Valid() && Execution(c, key, es, steps) && es[|steps|].ok
    ensures Read(es[|steps|], k) ==
      if k in SpecAfter(steps) then Some(SpecAfter(steps)[k]) else None
  {
    RunInv(c, key, es, steps);
    ReadIsSpec(c, es[|steps|], SpecAfter(steps), k);
  }

  /// Allocation safety in every guarded run: a live block's bit and its segment's bit are set,
  /// the reverse index names its lba, and no other lba lives at the same block.
  lemma {:induction false} AllocationSafety(c: Config, key: nat, es: seq<Engine>, steps: seq<Step>, k: nat)
    requires c.Valid() && Execution(c, key, es, steps) && es[|steps|].ok
    requires Live(es[|steps|].ix, k).Some?
    ensures var e, p := es[|steps|], Live(es[|steps|].ix, k).value.pba;
      && UsedBit(c, e.used, p) && SegOf(c, p) < |e.svt| && e.svt[SegOf(c, p)]
      && p < |e.rit| && e.rit[p] == k
      && forall j :: j != k && Live(e.ix, j).Some? ==> Live(e.ix, j).value.pba != p
  {
    RunInv(c, key, es, steps);
    var e := es[|steps|];
    assert Owns(c, e, k, Live(e.ix, k).value.pba);
    forall j | j != k && Live(e.ix, j).Some?
      ensures Live(e.ix, j).value.pba != Live(e.ix, k).value.pba
    {
      assert Owns(c, e, j, Live(e.ix, j).value.pba);
    }
  }
}
