/** Exactly when a step keeps the invariant, and exactly when a request reads what was written.  The
guards on garbage collection and on reissued blocks are not only enough but needed. */
module Exactness {
  import opened Common
  import opened Index
  import opened Engine
  import opened EngineProofs
  import opened EngineTree
  import opened EngineRuns
  import opened Level
  import opened LeafCache
  import opened LsmTree
  import opened RangeSearch
  import opened ReadPath

  // ---------------------------------------------------------------- reissued addresses

  /// A level behind the memtable still stores this address for the key: after the put the address is
  /// stored twice.
  lemma {:induction false} AliasAfterPut(l: Layers, cap: nat, k: nat, v: Record, i: nat)
    requires LayersOk(l) && !Negative(v) && i < 4
    requires Val(Levels(l)[i], k).Some? && Val(Levels(l)[i], k).value.pba == v.pba
    requires Rotates(l, cap, k, Some(v)) ==> !l.immPending
    requires Live(l, k).Some? ==> Live(l, k).value.pba != v.pba
    ensures !LayersOk(Put(l, cap, k, Some(v)))
  {
    var mid, l' := Inserted(l, k, Some(v)), Put(l, cap, k, Some(v));
    assert i != 0;
    assert Val(Levels(mid)[0], k) == Some(v) && Levels(mid)[i] == Levels(l)[i];
    if mid.size >= cap {
      assert Levels(l)[1] == map[];
      assert Levels(l')[1] == mid.mem && Levels(l')[i] == Levels(mid)[i];
      assert Val(Levels(l')[1], k) == Some(v) && Val(Levels(l')[i], k) == Val(Levels(l)[i], k);
    } else {
      assert Val(Levels(l')[0], k).value.pba == Val(Levels(l')[i], k).value.pba;
    }
  }

  lemma {:induction false} IssueIndex(c: Config, e: Engine, lba: nat, pba: nat, key: nat, d: Data)
    requires c.Valid()
    ensures var e1 := Issue(c, e, lba, pba, key, d);
      && e1.ix == Put(e.ix, c.cap, lba, Some(Record(pba, key)))
      && (e1.ok <==> e.ok && Unseen(e.ix, lba, pba) && (Rotates(e.ix, c.cap, lba, Some(Record(pba, key))) ==> !e.ix.immPending))
  {
    hide Put, Rotates, Unseen, Replaced;
  }

  /// Giving a free block to an lba keeps the invariant exactly when no table of the index still
  /// stores that address for that lba.
  lemma {:induction false} IssueExact(c: Config, e: Engine, spec: Spec, lba: nat, pba: nat, key: nat, d: Data)
    requires c.Valid() && Inv(c, e, spec) && e.ok && lba < MAX_KEY
    requires Rotates(e.ix, c.cap, lba, Some(Record(pba, key))) ==> !e.ix.immPending
    requires UsedBit(c, e.used, pba) && pba < |e.rit| && NotLive(e, pba)
    requires !Unflushed(e.pool, lba) ==> lba in spec && spec[lba] == d
    ensures Inv(c, Issue(c, e, lba, pba, key, d), spec) <==> Unseen(e.ix, lba, pba)
  {
    IssueIndex(c, e, lba, pba, key, d);
    if Unseen(e.ix, lba, pba) {
      IssueData(c, e, spec, lba, pba, key, d);
    } else {
      var i: nat :| i < 4 && var v := Val(Levels(e.ix)[i], lba); v.Some? && v.value.pba == pba;
      assert pba < INF_ADDR;
      AliasAfterPut(e.ix, c.cap, lba, Record(pba, key), i);
    }
  }

  // ---------------------------------------------------------------- flushed copies

  /// The collector finds the block up to date.
  predicate Moves(e: Engine, pba: nat)
    requires pba < |e.rit|
  {
    var r := Lookup(e.ix, KeyOf(e.rit[pba]));
    r.Some? && r.value.pba == pba
  }

  /// If the pool has the block's lba at all, it has it in a buffer that is still to be flushed.
  predicate CopyWaits(e: Engine, pba: nat)
    requires pba < |e.rit|
  {
    Moves(e, pba) && Query(e.pool.bufs, e.rit[pba]).Some? ==> Unflushed(e.pool, e.rit[pba])
  }

  /// Room for the put and the push of one block.
  predicate RoomForOne(c: Config, e: Engine, pba: nat)
    requires pba < |e.rit| && |e.pool.bufs| >= 1
  {
    && (Rotates(e.ix, c.cap, e.rit[pba], None) ==> !e.ix.immPending)
    && (pba in e.disk && Query(e.pool.bufs, e.rit[pba]).None? ==>
         RoomToRotate(c.bps, e.pool, e.rit[pba], e.disk[pba].plain))
  }

  /// Collecting one block keeps the invariant exactly when its copies in the pool, if any, are not
  /// all flushed already.
  lemma {:induction false} CollectBlockExact(c: Config, e: Engine, spec: Spec, pba: nat, newKey: nat)
    requires c.Valid() && Inv(c, e, spec) && e.ok && pba < |e.rit| && |e.pool.bufs| >= 1 && RoomForOne(c, e, pba)
    ensures Inv(c, GcBlock(c, e, pba, newKey), spec) <==> CopyWaits(e, pba)
    ensures GcBlock(c, e, pba, newKey).ok <==> CopyWaits(e, pba)
  {
    var lba := e.rit[pba];
    var e1 := e.(rit := e.rit[pba := INF_ADDR]);
    if !Moves(e, pba) {
      assert GcBlock(c, e, pba, newKey) == e1;
      GcBlockOk(c, e, spec, pba, newKey);
    } else {
      UpToDate(c, e, pba);
      var r := Lookup(e.ix, lba).value;
      assert Holds(e, spec, lba, r);
      GcMatch(c, e, pba, newKey, r);
      var d := e.disk[pba].plain;
      var e2 := PutRecord(c, e1, lba, None);
      var e3 := GcPush(c, e2, lba, d, newKey);
      assert e2.ok && e2.pool == e.pool && RoomForOne(c, e, pba);
      PushedWhen(c, e2, lba, d, newKey);
      if CopyWaits(e, pba) {
        GcBlockOk(c, e, spec, pba, newKey);
      } else {
        PutLive(e.ix, c.cap, lba, None);
        LostBlock(c, e2, e3, spec, lba);
      }
    }
  }

  lemma {:induction false} PushedWhen(c: Config, e: Engine, lba: nat, d: Data, newKey: nat)
    requires |e.pool.bufs| >= 1 && e.ok
    requires Query(e.pool.bufs, lba).None? ==> RoomToRotate(c.bps, e.pool, lba, d)
    ensures GcPush(c, e, lba, d, newKey).ok <==> (Query(e.pool.bufs, lba).Some? ==> Unflushed(e.pool, lba))
    ensures Query(e.pool.bufs, lba).Some? ==> GcPush(c, e, lba, d, newKey).pool == e.pool
    ensures GcPush(c, e, lba, d, newKey).ix == e.ix
  {
    hide Query, Unflushed, RoomToRotate, PushPool;
  }

  /// A written block with neither a record nor an unflushed copy breaks the invariant.
  lemma {:induction false} LostBlock(c: Config, e2: Engine, e3: Engine, spec: Spec, lba: nat)
    requires c.Valid() && lba in spec && Live(e2.ix, lba).None? && !Unflushed(e2.pool, lba)
    requires e3.ix == e2.ix && e3.pool == e2.pool
    ensures !Inv(c, e3, spec)
  {
  }

  // ---------------------------------------------------------------- the victim

  /// Every live block of the segment is in the bitmap copy.
  ghost predicate CoversLive(c: Config, e: Engine, seg: nat, bits: set<nat>)
    requires c.Valid()
  {
    forall k :: Live(e.ix, k).Some? && SegOf(c, Live(e.ix, k).value.pba) == seg ==> OffOf(c, Live(e.ix, k).value.pba) in bits
  }

  /// Collecting a block leaves the records of all other blocks alone, and makes none live.
  lemma {:induction false} OthersStay(c: Config, e: Engine, spec: Spec, pba: nat, newKey: nat, k: nat)
    requires c.Valid() && Inv(c, e, spec) && pba < |e.rit| && GcBlock(c, e, pba, newKey).ok
    ensures var e1 := GcBlock(c, e, pba, newKey);
      Live(e1.ix, k) == if Live(e.ix, k).Some? && Live(e.ix, k).value.pba == pba then None else Live(e.ix, k)
  {
    var lba := e.rit[pba];
    var e1 := e.(rit := e.rit[pba := INF_ADDR]);
    var r := Lookup(e.ix, KeyOf(lba));
    if r.None? || r.value.pba != pba {
      OutOfDate(c, e, pba);
    } else {
      UpToDate(c, e, pba);
      assert Holds(e, spec, lba, r.value);
      GcMatch(c, e, pba, newKey, r.value);
      GcPushMonitor(c, PutRecord(c, e1, lba, None), lba, e.disk[pba].plain, newKey);
      PutNone(c, e1, lba);
      hide PutRecord, Live, Query, PushPool, Unflushed, RoomToRotate;
    }
  }

  /// What is live after the blocks below offset `o`: all that was, but for the processed blocks.
  lemma {:induction false} LiveAfter(c: Config, e: Engine, spec: Spec, seg: nat, bits: set<nat>, newKey: nat, o: nat, k: nat)
    requires c.Valid() && Inv(c, e, spec) && seg < c.nseg && o <= c.bps && |e.pool.bufs| >= 1
    requires GcUpTo(c, e, seg, bits, newKey, o).ok
    ensures var e1 := GcUpTo(c, e, seg, bits, newKey, o); var r := Live(e.ix, k);
      Live(e1.ix, k) == if r.Some? && SegOf(c, r.value.pba) == seg && OffOf(c, r.value.pba) < o && OffOf(c, r.value.pba) in bits
        then None else r
  {
    hide AllocOk, DataOk, GcBlock, Live;
    var r := Live(e.ix, k);
    if o > 0 {
      var e0 := GcUpTo(c, e, seg, bits, newKey, o - 1);
      var pba := PbaOf(c, seg, o - 1);
      GcMonitor(c, e0, pba, newKey);
      GcUpToOk(c, e, spec, seg, bits, newKey, o - 1);
      LiveAfter(c, e, spec, seg, bits, newKey, o - 1, k);
      if o - 1 in bits {
        DivMod(c.bps, seg, o - 1);
        PbaBound(c, pba);
        AllocShape(c, e0);
        OthersStay(c, e0, spec, pba, newKey, k);
        if r.Some? { SamePba(c, r.value.pba, pba); }
      }
    }
  }

  /// Handing the segment back after the loop keeps the invariant exactly when the victim's bitmap
  /// covered every live block of the segment.
  lemma {:induction false} CoverExact(c: Config, e: Engine, spec: Spec, seg: nat, bits: set<nat>, newKey: nat)
    requires c.Valid() && Inv(c, e, spec) && seg < c.nseg && GcUpTo(c, e, seg, bits, newKey, c.bps).ok
    ensures Inv(c, ReturnSegment(GcUpTo(c, e, seg, bits, newKey, c.bps), seg), spec) <==> CoversLive(c, e, seg, bits)
  {
    var e1 := GcUpTo(c, e, seg, bits, newKey, c.bps);
    GcUpToOk(c, e, spec, seg, bits, newKey, c.bps);
    AllocShape(c, e1);
    forall k ensures var r := Live(e.ix, k); Live(e1.ix, k) == if r.Some? && SegOf(c, r.value.pba) == seg
        && OffOf(c, r.value.pba) < c.bps && OffOf(c, r.value.pba) in bits then None else r {
      LiveAfter(c, e, spec, seg, bits, newKey, c.bps, k);
    }
    hide GcUpTo, Live;
    if CoversLive(c, e, seg, bits) {
      forall o: nat | o < c.bps ensures NotLive(e1, PbaOf(c, seg, o)) {
        DivMod(c.bps, seg, o);
      }
      ReturnOk(c, e1, spec, seg);
    } else {
      var k :| Live(e.ix, k).Some? && SegOf(c, Live(e.ix, k).value.pba) == seg && OffOf(c, Live(e.ix, k).value.pba) !in bits;
      NotOwned(c, e1, seg, k, spec);
    }
  }

  /// A whole round on a popped victim, whose blocks all passed their own guard, keeps the engine sound
  /// exactly when the victim is not a node of the logging segment.  A node of the logging segment is
  /// popped only when it says that the segment is empty; whether that is true or stale does not matter.
  lemma {:induction false} CollectExact(c: Config, e: Engine, spec: Spec, seg: nat, bits: set<nat>, newKey: nat)
    requires c.Valid() && Inv(c, e, spec) && TreeInv(c, e, None) && e.ok && |e.pool.bufs| >= 1 && Pops(e, seg, bits)
    requires GcUpTo(c, AfterPop(e), seg, bits, newKey, c.bps).ok
    ensures var e1 := Gc(c, e, seg, bits, newKey);
      Inv(c, e1, spec) && TreeInv(c, e1, None) <==> e.logging != Some(seg)
  {
    GcTree(c, e, seg, bits, newKey);
    if e.logging != Some(seg) {
      GoodRound(c, e, seg, bits, newKey);
      GcOk(c, e, spec, seg, bits, newKey);
    }
    hide Inv, TreeInv, Gc;
  }

  lemma {:induction false} GoodRound(c: Config, e: Engine, seg: nat, bits: set<nat>, newKey: nat)
    requires c.Valid() && e.ok && |e.pool.bufs| >= 1 && e.logging != Some(seg)
    ensures Gc(c, e, seg, bits, newKey).ok == GcUpTo(c, AfterPop(e), seg, bits, newKey, c.bps).ok
  {
    assert AfterPop(e).(ok := e.ok && e.logging != Some(seg)) == AfterPop(e);
    hide GcUpTo, Poppable;
  }

  lemma {:induction false} NotOwned(c: Config, e: Engine, seg: nat, k: nat, spec: Spec)
    requires c.Valid() && seg < |e.used| && Live(e.ix, k).Some? && SegOf(c, Live(e.ix, k).value.pba) == seg
    ensures !Inv(c, ReturnSegment(e, seg), spec)
  {
    var e1 := ReturnSegment(e, seg);
    assert !Owns(c, e1, k, Live(e1.ix, k).value.pba);
  }

  // ---------------------------------------------------------------- reading through the range search

  /// A block of a read request comes out as last written exactly when the pool has it or the range search
  /// does not misread it: the newest file that knows the block must not hold it as a value and a negative
  /// in one leaf that is not cached when the search reaches the block.
  lemma {:induction false} RequestExact(c: Config, e: Engine, spec: Spec, s0: seq<File>, s1: seq<File>, cs: Caches, start: nat, end: nat,
                                        results: map<nat, Record>, k: nat)
    requires c.Valid() && Inv(c, e, spec) && start <= k <= end
    requires e.ix.l0 == Level0(s0) && e.ix.l1 == LevelTable(s1) && Disjoint(s1) && (s0 != [] ==> FileOk(s0[0]))
    requires forall i :: 0 <= i < |s1| ==> FileOk(s1[i])
    requires RangeOk(e.ix, start, end, Sees0(e.ix, s0, cs, start, end), Sees1(e.ix, s1, cs, start, end), results)
    ensures PageOf(e, results, k) == (if k in spec then Some(spec[k]) else None) <==>
      Query(e.pool.bufs, k).Some? || !Misread(e.ix, s0, s1, cs, start, end, k)
  {
    hide *;
    var first0, first1 := Sees0(e.ix, s0, cs, start, end), Sees1(e.ix, s1, cs, start, end);
    MisreadIs(e.ix, s0, s1, cs, start, end, k);
    AnsweredExact(c, e, spec, start, end, first0, first1, results, k);
  }

  /// The same in terms of the records that the leaves give.
  lemma {:induction false} AnsweredExact(c: Config, e: Engine, spec: Spec, start: nat, end: nat, first0: nat -> bool, first1: nat -> bool,
                                         results: map<nat, Record>, k: nat)
    requires c.Valid() && Inv(c, e, spec) && start <= k <= end
    requires RangeOk(e.ix, start, end, first0, first1, results)
    ensures PageOf(e, results, k) == (if k in spec then Some(spec[k]) else None) <==>
      Query(e.pool.bufs, k).Some? || !Diverges(e.ix, k, first0(k), first1(k))
  {
    ReadIsSpec(c, e, spec, k);
    RangeIsPoint(e.ix, k, first0(k), first1(k));
    var r := RangeAnswer(e.ix, k, first0(k), first1(k));
    assert r == if k in results then Some(results[k]) else None;
    if !Diverges(e.ix, k, first0(k), first1(k)) {
      PageIsRead(e, results, k);
    } else if Query(e.pool.bufs, k).None? {
      DivergesHidesData(c, e, spec, k, first0(k), first1(k));
      hide Inv, RangeAnswer, Diverges, Lookup;
    }
  }

  /// Where it diverges the block has live data, and the range search answers with the negative.
  lemma {:induction false} DivergesHidesData(c: Config, e: Engine, spec: Spec, k: nat, first0: bool, first1: bool)
    requires c.Valid() && Inv(c, e, spec) && Diverges(e.ix, k, first0, first1) && Query(e.pool.bufs, k).None?
    ensures k in spec && RangeAnswer(e.ix, k, first0, first1) == Some(TOMBSTONE) && Negative(TOMBSTONE)
  {
    assert Live(e.ix, k).Some?;
    assert Holds(e, spec, k, Live(e.ix, k).value);
    UnflushedIsQueried(e.pool, k);
  }
}
