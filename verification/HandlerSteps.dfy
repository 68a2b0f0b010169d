/** What the handlers of the module do to the engine, step by step: the value-level facts that the
objects' methods rest on. */
module HandlerSteps {
  import opened Common
  import opened Index
  import opened Engine
  import E = Engine
  import opened Victims
  import opened Segments
  import opened EngineProofs
  import opened EngineTree
  import opened EngineRuns
  import opened Ownership
  import opened ReadPath
  import opened Tables

  /// The bitmaps of the data segment table.
  function Bitmaps(entries: seq<SegEntry>): (r: seq<set<nat>>)
    ensures |r| == |entries| && forall s :: 0 <= s < |entries| ==> r[s] == entries[s].bits
  {
    seq(|entries|, s requires 0 <= s < |entries| => entries[s].bits)
  }

  function NoPages(n: nat): (r: seq<Option<Data>>)
    ensures |r| == n
  {
    seq(n, i => None)
  }

  lemma {:induction false} CollectNone(e: Engine, start: nat, results: map<nat, Record>, pages: seq<Option<Data>>)
    ensures Collected(e, start, 0, results, [], pages)
  {
  }

  lemma {:induction false} WantedIs(e: Engine, start: nat, results: map<nat, Record>, i: nat)
    ensures Wanted(e, start, results, i) <==>
      Query(e.pool.bufs, start + i).None? && start + i in results && !Negative(results[start + i])
  {
    hide Query, Negative;
  }

  /// A handler keeps the device faithful.
  lemma {:induction false} Kept(c: Config, e: Engine, s: Step, written: map<nat, Data>, freed: set<nat>)
    requires c.Valid() && Enabled(c, e, s) && (e.ok ==> Inv(c, e, written) && TreeInv(c, e, None))
    requires Held(c, e, freed) && Fits(c.bps, e.pool.bufs)
    ensures Apply(c, e, s).ok ==> Inv(c, Apply(c, e, s), SpecStep(written, s)) && TreeInv(c, Apply(c, e, s), None)
    ensures SpecStep(written, s) == if s.Write? then written[s.lba := s.data] else written
    ensures Held(c, Apply(c, e, s), freed + FreedBy(c, s)) && Fits(c.bps, Apply(c, e, s).pool.bufs)
    ensures !s.Collect? ==> freed + FreedBy(c, s) == freed
  {
    hide Enabled, Apply, Inv, TreeInv, Held, Fits;
    StepHeld(c, e, freed, s);
    if Apply(c, e, s).ok {
      ApplyMonitor(c, e, written, s);
      StepOk(c, e, written, s);
      StepTree(c, e, s);
      NeverLogging(c, e, s);
    }
  }

  /// When a flush with room and space leaves the monitor up.
  lemma {:induction false} FlushMonitor(c: Config, e: Engine, s: Step, freed: set<nat>)
    requires c.Valid() && Enabled(c, e, s) && s.FlushOldest? && Held(c, e, freed) && Fits(c.bps, e.pool.bufs)
    ensures e.ok && Room(c, e, s) ==> (Apply(c, e, s).ok <==> !Reissues(c, e, freed, s.order, s.place))
    ensures freed == {} ==> !Reissues(c, e, freed, s.order, s.place)
  {
    hide Enabled, Apply, Held, Fits, Room, Reissues;
    if e.ok && Room(c, e, s) { StepFlag(c, e, freed, s); }
    NeverReissues(c, e, s.order, s.place);
  }

  lemma {:induction false} ReleaseStart(c: Config, e: Engine, att: seq<Entry>)
    requires c.Valid()
    ensures ReleaseAll(c, e, att[..0]) == e
  {
  }

  lemma {:induction false} ReleaseNext(c: Config, e: Engine, att: seq<Entry>, i: nat)
    requires c.Valid() && i < |att|
    ensures ReleaseAll(c, e, att[..i + 1]) == Release(c, ReleaseAll(c, e, att[..i]), att[i].key, att[i].rec.pba)
  {
    assert att[..i + 1][..i] == att[..i];
    hide Release;
  }

  lemma {:induction false} ReleaseEnd(att: seq<Entry>)
    ensures att[..|att|] == att
  {
  }

  lemma {:induction false} ReleaseAllFrame(c: Config, e: Engine, att: seq<Entry>)
    requires c.Valid()
    ensures var e1 := ReleaseAll(c, e, att); e1 == e.(rit := e1.rit, used := e1.used, tree := e1.tree)
  {
    hide Release;
    if att != [] {
      var n := |att| - 1;
      ReleaseAllFrame(c, e, att[..n]);
      ReleaseFrame(c, ReleaseAll(c, e, att[..n]), att[n].key, att[n].rec.pba);
    }
  }

  lemma {:induction false} CompactIs(c: Config, e: Engine, l1': Table, att: seq<Entry>)
    requires c.Valid() && e.ix.immPending && CompactionOk(e.ix, l1', att)
    ensures Enabled(c, e, Step.Compaction(l1', att))
    ensures var e1 := ReleaseAll(c, e, att);
      && Apply(c, e, Step.Compaction(l1', att)) == e1.(ix := Minor(e.ix, l1'))
      && e1 == e.(rit := e1.rit, used := e1.used, tree := e1.tree)
  {
    ReleaseAllFrame(c, e, att);
    hide CompactionOk, Minor, ReleaseAll;
  }

  /// What a compaction frees, on the tables.
  lemma {:induction false} CompactFrees(c: Config, e: Engine, l1': Table, att: seq<Entry>)
    requires c.Valid() && e.ix.immPending && CompactionOk(e.ix, l1', att)
    ensures Enabled(c, e, Step.Compaction(l1', att))
    ensures var e1 := Apply(c, e, Step.Compaction(l1', att)); |e1.rit| == |e.rit| && forall p :: 0 <= p < |e.rit| ==>
      e1.rit[p] == if Retired(e.rit, e.ix, p) then INF_ADDR else e.rit[p]
    ensures var e1 := Apply(c, e, Step.Compaction(l1', att)); forall p :: 0 <= p < |e.rit| ==>
      (UsedBit(c, e1.used, p) <==> UsedBit(c, e.used, p) && !Retired(e.rit, e.ix, p))
  {
    var e1 := Compact(c, e, l1', att);
    CompactSize(c, e, l1', att);
    forall p | 0 <= p < |e.rit|
      ensures e1.rit[p] == if Retired(e.rit, e.ix, p) then INF_ADDR else e.rit[p]
      ensures UsedBit(c, e1.used, p) <==> UsedBit(c, e.used, p) && !Retired(e.rit, e.ix, p)
    {
      CompactExact(c, e, l1', att, p);
    }
    hide UsedBit, Retired, Compact, CompactionOk;
  }

  lemma {:induction false} CompactSize(c: Config, e: Engine, l1': Table, att: seq<Entry>)
    requires c.Valid() && CompactionOk(e.ix, l1', att)
    ensures |Compact(c, e, l1', att).rit| == |e.rit|
  {
    ReleaseAllSizes(c, e, att);
    hide ReleaseAll, CompactionOk, Minor;
  }

  lemma {:induction false} WriteIs(c: Config, e: Engine, lba: nat, d: Data, newKey: nat)
    requires c.Valid() && PoolOk(c, e.pool) && lba < MAX_KEY && PoolRoom(c.bps, e.pool, 1)
    ensures RoomToRotate(c.bps, e.pool, lba, d)
    ensures Enabled(c, e, Step.Write(lba, d, newKey))
    ensures var e1 := Apply(c, e, Step.Write(lba, d, newKey));
      e1 == e.(pool := e1.pool) && e1.pool == PushPool(c.bps, e.pool, lba, d, newKey) && PoolOk(c, e1.pool)
  {
    PoolPut(c, e.pool, lba, d, newKey, 1);
    hide PushPool, RoomToRotate, PoolRoom;
  }

  lemma {:induction false} ReturnFrame(e: Engine, seg: nat)
    ensures var e1 := ReturnSegment(e, seg);
      e1.pool == e.pool && e1.ix == e.ix && e1.rit == e.rit && e1.disk == e.disk && e1.logging == e.logging
  {
  }

  lemma {:induction false} ReturnIs(e: Engine, seg: nat, es: seq<SegEntry>, es': seq<SegEntry>)
    requires seg < |es| && |e.svt| == |es| && e.used == Bitmaps(es) && es' == es[seg := SegEntry(0, {})]
    ensures var e1 := ReturnSegment(e, seg);
      && e1 == e.(used := e1.used, svt := e1.svt, tree := e1.tree)
      && e1.used == Bitmaps(es') && e1.svt == e.svt[seg := false] && e1.tree == Remove(e.tree, seg)
  {
    assert Bitmaps(es') == e.used[seg := {}];
  }

  lemma {:induction false} CollectIs(c: Config, e: Engine, seg: nat, bits: set<nat>, newKey: nat)
    requires c.Valid() && |e.pool.bufs| >= 1 && Pops(e, seg, bits)
    ensures Enabled(c, e, Step.Collect(seg, bits, newKey))
    ensures Apply(c, e, Step.Collect(seg, bits, newKey)) ==
      ReturnSegment(GcUpTo(c, AfterPop(e).(ok := e.ok && e.logging != Some(seg)), seg, bits, newKey, c.bps), seg)
  {
    hide GcUpTo, ReturnSegment, Poppable;
  }

  lemma {:induction false} NothingIs(c: Config, e: Engine)
    requires c.Valid() && Poppable(e.tree, e.logging) == []
    ensures Enabled(c, e, Step.NothingToCollect) && Apply(c, e, Step.NothingToCollect) == AfterPop(e)
  {
    hide Poppable;
  }

  lemma {:induction false} PopFrame(e: Engine)
    ensures AfterPop(e) == e.(tree := AfterPop(e).tree)
  {
    hide Poppable;
  }

  /// A popped node's segment has its bit set, and no other node.
  lemma {:induction false} NodeSegment(table: seq<bool>, nrValid: nat, es: seq<SegEntry>, vs: seq<Victim>, logging: Option<nat>,
                                       vs': seq<Victim>, bps: nat)
    requires vs != [] && vs' == vs[1..] && Tied(table, nrValid, es, vs, logging)
    requires Agree(es, vs', logging, Some(vs[0].segno), bps) && vs[0].segno < |es|
    requires forall w :: w in vs' ==> w.segno != vs[0].segno
    ensures vs[0].segno < |table| && table[vs[0].segno] && Tied(table, nrValid, es, vs', logging)
  {
    assert vs[0] in vs;
    hide Agree;
  }

  /// What popping does to the tree, one node at a time.
  lemma {:induction false} PopOne(tree: seq<Victim>, logging: Option<nat>)
    requires tree != []
    ensures tree[0].nr > 0 && logging == Some(tree[0].segno) ==> Poppable(tree, logging) == Poppable(tree[1..], logging)
    ensures !(tree[0].nr > 0 && logging == Some(tree[0].segno)) ==> Poppable(tree, logging) == tree
  {
  }

  lemma {:induction false} PopNone(logging: Option<nat>)
    ensures Poppable([], logging) == []
  {
  }

  lemma {:induction false} PopIs(e: Engine, t: seq<Victim>)
    requires t == Poppable(e.tree, e.logging)
    ensures AfterPop(e) == e.(tree := if t == [] then [] else t[1..])
    ensures t != [] ==> Pops(e, t[0].segno, t[0].bits)
  {
    hide Poppable;
  }

  /// find_next_bit: the first set bit from `i` on, or `n`.
  function NextBit(bits: set<nat>, n: nat, i: nat): (o: nat)
    requires i <= n
    ensures i <= o <= n && (o < n ==> o in bits)
    ensures forall j: nat :: i <= j < o ==> j !in bits
    decreases n - i
  {
    if i == n || i in bits then i else NextBit(bits, n, i + 1)
  }

  lemma {:induction false} GcStart(c: Config, e: Engine, seg: nat, bits: set<nat>, newKey: nat)
    requires c.Valid() && |e.pool.bufs| >= 1
    ensures GcUpTo(c, e, seg, bits, newKey, 0) == e
  {
  }

  lemma {:induction false} GcNext(c: Config, e: Engine, seg: nat, bits: set<nat>, newKey: nat, o: nat)
    requires c.Valid() && |e.pool.bufs| >= 1 && o >= 1 && o - 1 in bits
    ensures |GcUpTo(c, e, seg, bits, newKey, o - 1).pool.bufs| >= 1
    ensures GcUpTo(c, e, seg, bits, newKey, o) == GcBlock(c, GcUpTo(c, e, seg, bits, newKey, o - 1), PbaOf(c, seg, o - 1), newKey)
    ensures |GcUpTo(c, e, seg, bits, newKey, o).pool.bufs| >= 1
  {
    hide GcBlock;
  }

  /// Offsets whose bit is clear do nothing.
  lemma {:induction false} GcSkip(c: Config, e: Engine, seg: nat, bits: set<nat>, newKey: nat, i: nat, o: nat)
    requires c.Valid() && |e.pool.bufs| >= 1 && i <= o && forall j: nat :: i <= j < o ==> j !in bits
    ensures GcUpTo(c, e, seg, bits, newKey, o) == GcUpTo(c, e, seg, bits, newKey, i)
  {
    hide GcBlock;
    if i < o { GcSkip(c, e, seg, bits, newKey, i, o - 1); }
  }

  lemma {:induction false} PoolFewer(c: Config, p: Pool, n: nat, m: nat)
    requires |p.bufs| >= 1 && m <= n && PoolRoom(c.bps, p, n)
    ensures PoolRoom(c.bps, p, m)
  {
  }

  lemma {:induction false} RoomFewer(c: Config, e: Engine, n: nat, m: nat)
    requires |e.pool.bufs| >= 1 && m <= n && RoomFor(e.ix, c.cap, n) && PoolRoom(c.bps, e.pool, n)
    ensures RoomFor(e.ix, c.cap, m) && PoolRoom(c.bps, e.pool, m)
  {
    PoolFewer(c, e.pool, n, m);
  }

  /// One block uses up the room of one put and of one push.
  lemma {:induction false} GcRoom(c: Config, e: Engine, pba: nat, newKey: nat, n: nat)
    requires c.Valid() && PoolOk(c, e.pool) && RitOk(e.rit) && n >= 1
    requires LayersShape(e.ix) && RoomFor(e.ix, c.cap, n) && PoolRoom(c.bps, e.pool, n)
    ensures var e1 := GcBlock(c, e, pba, newKey);
      |e1.pool.bufs| >= 1 && RoomFor(e1.ix, c.cap, n - 1) && PoolRoom(c.bps, e1.pool, n - 1)
  {
    GcBlockIs(c, e, pba, newKey);
    RoomFewer(c, e, n, n - 1);
    if pba < |e.rit| {
      var lba, e1 := e.rit[pba], e.(rit := e.rit[pba := INF_ADDR]);
      var r := Lookup(e.ix, KeyOf(lba));
      LookupKey(e.ix, KeyOf(lba));
      if r.Some? && r.value.pba == pba {
        RitAt(e.rit, pba);
        RoomNone(c, e.ix, lba, n);
        PutNoneIs(c, e1, lba);
        var e2 := E.PutRecord(c, e1, lba, None);
        var plain := if pba in e.disk then Open(e.disk[pba], r.value.key, pba) else None;
        if plain.Some? {
          GcPushFrame(c, e2, lba, plain.value, newKey);
          PushRoom(c, e2, lba, plain.value, newKey, n);
        }
      }
    }
    hide *;
  }

  lemma {:induction false} PushRoom(c: Config, e: Engine, lba: nat, d: Data, newKey: nat, n: nat)
    requires c.Valid() && PoolOk(c, e.pool) && lba < MAX_KEY && n >= 1 && PoolRoom(c.bps, e.pool, n)
    ensures var e1 := GcPush(c, e, lba, d, newKey); |e1.pool.bufs| >= 1 && PoolRoom(c.bps, e1.pool, n - 1)
  {
    PoolPut(c, e.pool, lba, d, newKey, n);
    PoolFewer(c, e.pool, n, n - 1);
    hide PushPool, Query, Unflushed, RoomToRotate, PoolRoom;
  }

  /// The pool can take `n` blocks and still find a slot that is not waiting when it rotates.
  predicate PoolRoom(bps: nat, p: Pool, n: nat)
    requires |p.bufs| >= 1
  {
    n <= bps && (p.pending + 1 < |p.bufs| || |p.bufs[0].blocks| + n < bps)
  }

  lemma {:induction false} PoolPut(c: Config, p: Pool, lba: nat, d: Data, newKey: nat, n: nat)
    requires c.Valid() && PoolOk(c, p) && lba < MAX_KEY && n >= 1 && PoolRoom(c.bps, p, n)
    ensures RoomToRotate(c.bps, p, lba, d)
    ensures var p1 := PushPool(c.bps, p, lba, d, newKey); PoolOk(c, p1) && PoolRoom(c.bps, p1, n - 1)
  {
    PushKeepsPool(c, p, lba, d, newKey);
  }

  /// A write with room and a compaction leave the monitor as it is.
  lemma {:induction false} StaysUp(c: Config, e: Engine, s: Step)
    requires c.Valid() && Enabled(c, e, s) && (s.Write? || s.Compaction?)
    requires s.Write? ==> PoolOk(c, e.pool) && |e.pool.bufs| >= 1 && PoolRoom(c.bps, e.pool, 1)
    ensures Apply(c, e, s).ok == e.ok
  {
    if s.Write? {
      PoolPut(c, e.pool, s.lba, s.data, s.newKey, 1);
    } else {
      ReleaseAllSizes(c, e, s.att);
    }
    hide PoolOk, PoolRoom, RoomToRotate, PushPool, ReleaseAll, CompactionOk;
  }

  lemma {:induction false} PoolBufs(c: Config, p: Pool)
    requires c.Valid() && PoolOk(c, p)
    ensures |p.bufs| >= 1
  {
  }

  lemma {:induction false} FillSize(b: Buf, lba: nat, d: Data)
    ensures |Fill(b, lba, d).blocks| <= |b.blocks| + 1
  {
    var m := b.blocks[lba := d];
    assert m.Keys == b.blocks.Keys + {lba};
    assert |m| == |m.Keys| && |b.blocks| == |b.blocks.Keys|;
    if lba in b.blocks { assert m.Keys == b.blocks.Keys; }
  }

  /// A push with room to rotate keeps the pool well formed.
  lemma {:induction false} PushKeepsPool(c: Config, p: Pool, lba: nat, d: Data, newKey: nat)
    requires c.Valid() && PoolOk(c, p) && lba < MAX_KEY
    ensures |Fill(p.bufs[0], lba, d).blocks| <= |p.bufs[0].blocks| + 1
    ensures RoomToRotate(c.bps, p, lba, d) ==> PoolOk(c, PushPool(c.bps, p, lba, d, newKey))
  {
    FillSize(p.bufs[0], lba, d);
    var f := Fill(p.bufs[0], lba, d);
    assert forall k :: k in f.blocks ==> k < MAX_KEY;
    hide Fill;
  }

  lemma {:induction false} RequeueIs(c: Config, e: Engine, lba: nat, d: Data, newKey: nat)
    requires c.Valid() && PoolOk(c, e.pool) && lba < MAX_KEY && PoolRoom(c.bps, e.pool, 1)
    ensures RoomToRotate(c.bps, e.pool, lba, d)
    ensures var e1 := GcPush(c, e, lba, d, newKey);
      && PoolOk(c, e1.pool)
      && e1.pool == if Query(e.pool.bufs, lba).None? then PushPool(c.bps, e.pool, lba, d, newKey) else e.pool
  {
    PoolPut(c, e.pool, lba, d, newKey, 1);
    hide PushPool, Query, Unflushed, RoomToRotate, PoolRoom;
  }

  lemma {:induction false} GcPushFrame(c: Config, e: Engine, lba: nat, d: Data, newKey: nat)
    requires |e.pool.bufs| >= 1
    ensures var e1 := GcPush(c, e, lba, d, newKey); e1 == e.(pool := e1.pool, ok := e1.ok)
  {
    hide PushPool, Query, Unflushed, RoomToRotate;
  }

  lemma {:induction false} LookupKey(l: Layers, k: nat)
    requires LayersShape(l)
    ensures Lookup(l, k).Some? ==> k < MAX_KEY
  {
  }

  /// An entry that names a key is not truncated; the reserved address truncates to no key.
  lemma {:induction false} RitAt(rit: seq<nat>, pba: nat)
    requires RitOk(rit) && pba < |rit| && KeyOf(rit[pba]) < MAX_KEY
    ensures KeyOf(rit[pba]) == rit[pba]
  {
  }

  lemma {:induction false} GcBlockIs(c: Config, e: Engine, pba: nat, newKey: nat)
    requires c.Valid() && |e.pool.bufs| >= 1
    ensures pba >= |e.rit| ==> GcBlock(c, e, pba, newKey) == e
    ensures pba < |e.rit| ==>
      var lba, e1 := e.rit[pba], e.(rit := e.rit[pba := INF_ADDR]);
      var r := Lookup(e.ix, KeyOf(lba));
      GcBlock(c, e, pba, newKey) ==
        if r.None? || r.value.pba != pba then e1
        else
          var e2 := E.PutRecord(c, e1, KeyOf(lba), None);
          var plain := if pba in e.disk then Open(e.disk[pba], r.value.key, pba) else None;
          if plain.None? then e2 else GcPush(c, e2, lba, plain.value, newKey)
  {
    hide GcPush, Lookup, Open, KeyOf, Put, Rotates;
  }

  /// The engine after a flush, with the buffer still in the queue.
  ghost predicate Flushed(c: Config, e: Engine, s: Step, e1: Engine)
    requires c.Valid() && s.FlushOldest? && Enabled(c, e, s)
  {
    e1.pool == e.pool && e1.(pool := e.pool.(pending := e.pool.pending - 1)) == Apply(c, e, s)
  }

  lemma {:induction false} FrontBuffer(c: Config, e: Engine, order: seq<nat>)
    requires c.Valid() && PoolOk(c, e.pool) && 0 < e.pool.pending < |e.pool.bufs|
    requires Ascending(order) && forall k :: k in e.pool.bufs[e.pool.pending].blocks.Keys <==> k in order
    requires RoomFor(e.ix, c.cap, c.bps)
    ensures IsOrder(order, e.pool.bufs[e.pool.pending].blocks.Keys) && |order| <= c.bps
    ensures Blocks(order, e.pool.bufs[e.pool.pending]) && RoomFor(e.ix, c.cap, |order|)
  {
    FlushedBuffer(c, e, order);
  }

  lemma {:induction false} FlushedSegment(c: Config, e: Engine, order: seq<nat>, seg: nat, e0: Engine)
    requires c.Valid() && PoolOk(c, e.pool) && 0 < e.pool.pending < |e.pool.bufs| && seg < c.nseg && Fresh(e, seg)
    requires IsOrder(order, e.pool.bufs[e.pool.pending].blocks.Keys) && e0 == AllocSegment(c, e, seg)
    requires Blocks(order, e.pool.bufs[e.pool.pending])
    ensures forall j :: 0 <= j < |order| ==> order[j] in e.pool.bufs[e.pool.pending].blocks
    ensures var b, s := e.pool.bufs[e.pool.pending], Step.FlushOldest(order, Segment(seg));
      && e0 == FlushUpTo(c, e, order, b, seg, 0) && e0.ix == e.ix
      && Enabled(c, e, s) && Flushed(c, e, s, FlushUpTo(c, e, order, b, seg, |order|))
  {
    FlushPool(c, e, order, e.pool.bufs[e.pool.pending], seg, |order|);
  }

  lemma {:induction false} FlushedLogging(c: Config, e: Engine, order: seq<nat>, wheres: seq<Option<nat>>, e1: Engine)
    requires c.Valid() && PoolOk(c, e.pool) && 0 < e.pool.pending < |e.pool.bufs|
    requires IsOrder(order, e.pool.bufs[e.pool.pending].blocks.Keys) && |wheres| == |order|
    requires forall j :: 0 <= j < |order| ==> order[j] in e.pool.bufs[e.pool.pending].blocks
    requires EngineTree.Answers(c, e, order, e.pool.bufs[e.pool.pending], wheres) && AllSet(e.svt)
    requires e1 == LogUpTo(c, e, order, e.pool.bufs[e.pool.pending], wheres, |order|)
    ensures var s := Step.FlushOldest(order, Logging(wheres)); Enabled(c, e, s) && Flushed(c, e, s, e1)
  {
    LogPool(c, e, order, e.pool.bufs[e.pool.pending], wheres, |order|);
  }

  ghost predicate Fresh(e: Engine, seg: nat) {
    seg < |e.svt| && !e.svt[seg] && seg < |e.used| && e.used[seg] == {}
  }

  lemma {:induction false} AllocIs(c: Config, e: Engine, seg: nat, es: seq<SegEntry>, es': seq<SegEntry>)
    requires seg < |es| && |e.svt| == |es| && e.used == Bitmaps(es)
    requires es' == es[seg := SegEntry(c.bps, Below(c.bps))] && es[seg].nr == |es[seg].bits| == 0
    ensures var e1 := AllocSegment(c, e, seg);
      && e1 == e.(svt := e1.svt, used := e1.used, tree := e1.tree)
      && e1.svt == e.svt[seg := true] && e1.used == Bitmaps(es') && e1.tree == Remove(e.tree, seg)
    ensures Fresh(e, seg) <==> !e.svt[seg]
  {
    hide Below, Remove;
    assert Bitmaps(es') == e.used[seg := Below(c.bps)];
  }

  /// Every block of the list is in the buffer, and addressed by a key of the index.
  ghost predicate Blocks(order: seq<nat>, b: Buf) {
    forall j :: 0 <= j < |order| ==> order[j] in b.blocks && order[j] < MAX_KEY
  }

  lemma {:induction false} BlockAt(order: seq<nat>, b: Buf, i: nat)
    requires Blocks(order, b) && i < |order|
    ensures order[i] in b.blocks && order[i] < MAX_KEY
  {
  }

  lemma {:induction false} BlocksIn(order: seq<nat>, b: Buf)
    requires Blocks(order, b)
    ensures forall j :: 0 <= j < |order| ==> order[j] in b.blocks
  {
  }

  /// The blocks of the last segment are below the reserved address.
  lemma {:induction false} Address(c: Config, seg: nat, off: nat)
    requires c.Valid() && seg < c.nseg && off < c.bps
    ensures PbaOf(c, seg, off) < c.nseg * c.bps <= INF_ADDR
  {
    assert (seg + 1) * c.bps <= c.nseg * c.bps;
  }

  lemma {:induction false} FlushStep(c: Config, e: Engine, order: seq<nat>, b: Buf, seg: nat, i: nat)
    requires c.Valid() && 0 < i <= |order| && forall j :: 0 <= j < |order| ==> order[j] in b.blocks
    ensures FlushUpTo(c, e, order, b, seg, i) ==
      Issue(c, FlushUpTo(c, e, order, b, seg, i - 1), order[i-1], PbaOf(c, seg, i - 1), b.key, b.blocks[order[i-1]])
  {
  }

  lemma {:induction false} Positive(pba: nat, key: nat)
    requires pba < INF_ADDR
    ensures !Negative(Record(pba, key))
  {
  }

  lemma {:induction false} FlushedIs(c: Config, e: Engine, s: Step, e1: Engine)
    requires c.Valid() && s.FlushOldest? && Enabled(c, e, s) && Flushed(c, e, s, e1) && PoolOk(c, e1.pool)
    ensures var e2 := Apply(c, e, s);
      && e2 == e1.(pool := e2.pool) && e2.pool == e1.pool.(pending := e1.pool.pending - 1) && PoolOk(c, e2.pool)
  {
  }

  lemma {:induction false} PutNoneIs(c: Config, e: Engine, k: nat)
    requires c.Valid() && (Rotates(e.ix, c.cap, k, None) ==> !e.ix.immPending)
    ensures E.PutRecord(c, e, k, None) == e.(ix := Put(e.ix, c.cap, k, None))
  {
    hide Put, Rotates;
  }

  /// The engine once a block's reverse index entry and contents are in place.
  function Settled(e: Engine, lba: nat, pba: nat, key: nat, d: Data, seen: bool): Engine {
    e.(rit := if pba < |e.rit| then e.rit[pba := lba] else e.rit, disk := e.disk[pba := Sealed(key, pba, d)],
       ok := e.ok && !seen)
  }

  lemma {:induction false} SettledIs(e: Engine, lba: nat, pba: nat, key: nat, d: Data, seen: bool)
    ensures var e1 := Settled(e, lba, pba, key, d, seen);
      && e1.pool == e.pool && e1.ix == e.ix && e1.used == e.used && e1.svt == e.svt && e1.tree == e.tree && e1.logging == e.logging
      && e1.rit == (if pba < |e.rit| then e.rit[pba := lba] else e.rit) && e1.disk == e.disk[pba := Sealed(key, pba, d)]
  {
  }

  /// Every entry of the reverse index is a key or the reserved address.
  ghost predicate RitOk(rit: seq<nat>) {
    forall i :: 0 <= i < |rit| ==> rit[i] < MAX_KEY || rit[i] == INF_ADDR
  }

  lemma {:induction false} RitSet(rit: seq<nat>, pba: nat, lba: nat)
    requires RitOk(rit)
    ensures pba < |rit| && (lba < MAX_KEY || lba == INF_ADDR) ==> RitOk(rit[pba := lba])
  {
  }

  lemma {:induction false} ConfigParts(c: Config)
    requires c.Valid()
    ensures c.bps >= 1 && c.slots >= 2 && c.cap >= 1
  {
  }

  /// A formatted reverse index.
  function ZeroedRit(nseg: nat, bps: nat): (r: seq<nat>)
    ensures |r| == bps * nseg && r == seq(nseg * bps, i => 0) && RitOk(r)
  {
    seq(nseg * bps, i => 0)
  }

  /// The tables of a formatted device.
  lemma {:induction false} FormattedTables(c: Config, table: seq<bool>, entries: seq<SegEntry>)
    requires |table| == |entries| == c.nseg && (forall i :: 0 <= i < c.nseg ==> !table[i])
    requires forall i :: 0 <= i < c.nseg ==> entries[i] == SegEntry(0, {})
    ensures table == seq(c.nseg, i => false) && Bitmaps(entries) == seq(c.nseg, i => {})
    ensures c.nseg * c.bps == c.bps * c.nseg
  {
  }

  lemma {:induction false} InitIs(c: Config, key: nat)
    ensures var e := Init(c, key);
      && e.pool == Pool(seq(c.slots, i => Buf(key, map[])), 0)
      && e.ix == Layers(map[], 0, None, false, None, map[]) && e.rit == seq(c.nseg * c.bps, i => 0)
      && e.used == seq(c.nseg, i => {}) && e.svt == seq(c.nseg, i => false) && e.disk == map[] && e.ok
      && e.tree == [] && e.logging.None?
    ensures c.Valid() ==> PoolOk(c, Init(c, key).pool)
  {
  }

  lemma {:induction false} NothingTied(table: seq<bool>, entries: seq<SegEntry>)
    requires |table| == |entries| && Count(table) == 0 && forall i :: 0 <= i < |entries| ==> entries[i] == SegEntry(0, {})
    ensures Tied(table, 0, entries, [], None)
  {
  }

  /// Returning a block changes one entry, which does not gain blocks.
  lemma {:induction false} ReturnKeeps(es: seq<SegEntry>, pba: nat, bps: nat, es': seq<SegEntry>)
    requires bps >= 1 && forall s :: 0 <= s < |es| ==> es[s].nr == |es[s].bits|
    requires es' == if pba / bps < |es| then
      es[pba / bps := SegEntry(|es[pba / bps].bits - {pba % bps}|, es[pba / bps].bits - {pba % bps})] else es
    ensures |es'| == |es| && forall s :: 0 <= s < |es| && es'[s].nr > 0 ==> es[s].nr > 0
  {
    if pba / bps < |es| {
      var x, y := es[pba / bps].bits, es[pba / bps].bits - {pba % bps};
      assert x == {} ==> y == {};
    }
  }

  lemma {:induction false} ReturnClears(c: Config, es: seq<SegEntry>, pba: nat, es': seq<SegEntry>)
    requires c.Valid()
    requires es' == if pba / c.bps < |es| then
      es[pba / c.bps := SegEntry(|es[pba / c.bps].bits - {pba % c.bps}|, es[pba / c.bps].bits - {pba % c.bps})] else es
    ensures Bitmaps(es') == ClearBit(c, Bitmaps(es), pba)
  {
  }

  lemma {:induction false} ReleaseDone(c: Config, e: Engine, lba: nat, pba: nat, used': seq<set<nat>>)
    requires c.Valid() && pba < |e.rit| && e.rit[pba] == lba && used' == ClearBit(c, e.used, pba)
    ensures Release(c, e, lba, pba) == e.(rit := e.rit[pba := INF_ADDR], used := used', tree := ReturnTree(c, e, pba))
  {
    hide ReturnTree;
  }

  lemma {:induction false} ReturnedTree(c: Config, e: Engine, es: seq<SegEntry>, pba: nat, es': seq<SegEntry>, vs': seq<Victim>)
    requires c.Valid() && e.used == Bitmaps(es) && forall s :: 0 <= s < |es| ==> es[s].nr == |es[s].bits|
    requires es' == if pba / c.bps < |es| then
      es[pba / c.bps := SegEntry(|es[pba / c.bps].bits - {pba % c.bps}|, es[pba / c.bps].bits - {pba % c.bps})] else es
    requires vs' == if pba / c.bps < |es| && es[pba / c.bps].nr > 0 then Update(e.tree, pba / c.bps, es'[pba / c.bps], c.bps) else e.tree
    ensures vs' == ReturnTree(c, e, pba)
  {
    hide Update;
    if pba / c.bps < |es| { SetSome(es[pba / c.bps].bits); }
  }

  lemma {:induction false} ReleaseSkips(c: Config, e: Engine, lba: nat, pba: nat)
    requires c.Valid() && !(pba < |e.rit| && e.rit[pba] == lba)
    ensures Release(c, e, lba, pba) == e
  {
  }

  /// A release touches only the reverse index and the bitmaps.
  lemma {:induction false} ReleaseFrame(c: Config, e: Engine, lba: nat, pba: nat)
    requires c.Valid()
    ensures var e1 := Release(c, e, lba, pba); e1 == e.(rit := e1.rit, used := e1.used, tree := e1.tree)
  {
  }

  lemma {:induction false} PutIs(c: Config, e: Engine, lba: nat, v: Option<Record>, e1: Engine)
    requires c.Valid() && (Rotates(e.ix, c.cap, lba, v) ==> !e.ix.immPending)
    requires e1 == e.(ix := Put(e.ix, c.cap, lba, v))
    ensures var prev := Replaced(e.ix.mem, lba, v);
      E.PutRecord(c, e, lba, v) == if prev.Some? then Release(c, e1, lba, prev.value.pba) else e1
  {
    assert e1 == e1.(ok := e.ok && (Rotates(e.ix, c.cap, lba, v) ==> !e.ix.immPending));
  }

  lemma {:induction false} IssueIs(c: Config, e: Engine, lba: nat, pba: nat, key: nat, d: Data, e1: Engine)
    requires c.Valid() && e1 == E.PutRecord(c, e, lba, Some(Record(pba, key)))
    ensures Issue(c, e, lba, pba, key, d) == Settled(e1, lba, pba, key, d, !Unseen(e.ix, lba, pba))
  {
    var x := e.ok && Unseen(e.ix, lba, pba);
    var y := e.ok && (Rotates(e.ix, c.cap, lba, Some(Record(pba, key))) ==> !e.ix.immPending);
    hide Put, Replaced, Unseen, Rotates;
  }

  lemma {:induction false} LeftAre(c: Config, e: Engine, es: seq<SegEntry>)
    requires e.used == Bitmaps(es) && forall s :: 0 <= s < |es| ==> es[s].nr == |es[s].bits|
    ensures var e0 := LeaveFull(c, e);
      && e0 == e.(tree := TreeLeft(es, e.tree, e.logging, c.bps), logging := LoggingLeft(es, e.logging, c.bps))
  {
    hide Remove;
  }

  /// The block that find_logging_block hands out, on the engine's tables.
  lemma {:induction false} LoggedIs(c: Config, e: Engine, seg: nat, off: nat, es: seq<SegEntry>, es': seq<SegEntry>, pba: nat,
                                    vs': seq<Victim>, table': seq<bool>, cur: nat, cur': nat)
    requires c.Valid() && seg < |es| == |es'| == |e.svt| == c.nseg && off < c.bps && e.used == Bitmaps(es)
    requires forall s :: 0 <= s < |es| ==> es[s].nr == |es[s].bits|
    requires pba == seg * c.bps + off
    requires off !in es[seg].bits && (forall i: nat :: i < off ==> i in es[seg].bits) && es'[seg] == SegEntry(es[seg].nr + 1, es[seg].bits + {off})
    requires es' == es[seg := es'[seg]]
    requires Chosen(TreeLeft(es, e.tree, e.logging, c.bps), LoggingLeft(es, e.logging, c.bps), e.svt, cur, vs', Some(seg), table', cur')
    ensures pba < c.nseg * c.bps <= INF_ADDR && MayLog(c, e, pba)
    ensures var e1 := TakeBlockState(c, e, pba);
      && e1 == e.(svt := e1.svt, used := e1.used, tree := e1.tree, logging := e1.logging)
      && e1.svt == table' && e1.used == Bitmaps(es') && e1.tree == vs' && e1.logging == Some(seg)
  {
    Address(c, seg, off);
    DivMod(c.bps, seg, off);
    LeftAre(c, e, es);
    assert Bitmaps(es') == e.used[seg := e.used[seg] + {off}];
    var vs, lg := TreeLeft(es, e.tree, e.logging, c.bps), LoggingLeft(es, e.logging, c.bps);
    if lg.None? && vs == [] { ChosenParts(vs, lg, e.svt, cur, vs', Some(seg), table', cur'); }
    hide TreeLeft, LoggingLeft, Remove, LeaveFull, FirstClear;
  }

  /// Without space the logging segment is left and nothing else changes.
  lemma {:induction false} LogFailed(c: Config, e: Engine, es: seq<SegEntry>)
    requires e.used == Bitmaps(es) && forall s :: 0 <= s < |es| ==> es[s].nr == |es[s].bits|
    requires TreeLeft(es, e.tree, e.logging, c.bps) == [] && LoggingLeft(es, e.logging, c.bps).None? && AllSet(e.svt)
    ensures NoSpace(c, e) && LeaveFull(c, e) == e.(tree := [], logging := None)
  {
    LeftAre(c, e, es);
    hide TreeLeft, LoggingLeft, LeaveFull;
  }

  lemma {:induction false} LogAnswer(c: Config, e: Engine, r: Option<nat>)
    requires c.Valid()
    ensures Answer(c, e, r) <==> if r.Some? then MayLog(c, e, r.value) else NoSpace(c, e)
    ensures r.Some? && MayLog(c, e, r.value) ==> r.value < c.nseg * c.bps <= INF_ADDR
  {
    hide NoSpace;
  }

  function NoAnswers(n: nat): (r: seq<Option<nat>>)
    ensures |r| == n
  {
    seq(n, i => None)
  }

  /// The first `i` answers are those of find_logging_block.
  ghost predicate AnswersTo(c: Config, e: Engine, order: seq<nat>, b: Buf, wheres: seq<Option<nat>>, i: nat)
    requires c.Valid() && |wheres| == |order| && i <= |order|
    requires forall j :: 0 <= j < |order| ==> order[j] in b.blocks
  {
    forall j :: 0 <= j < i ==> Answer(c, LogUpTo(c, e, order, b, wheres, j), wheres[j])
  }

  lemma {:induction false} AnswersAll(c: Config, e: Engine, order: seq<nat>, b: Buf, wheres: seq<Option<nat>>)
    requires c.Valid() && |wheres| == |order| && forall j :: 0 <= j < |order| ==> order[j] in b.blocks
    requires AnswersTo(c, e, order, b, wheres, |order|)
    ensures EngineTree.Answers(c, e, order, b, wheres)
  {
  }

  lemma {:induction false} LogStart(c: Config, e: Engine, order: seq<nat>, b: Buf, wheres: seq<Option<nat>>)
    requires c.Valid() && |wheres| == |order| && forall j :: 0 <= j < |order| ==> order[j] in b.blocks
    ensures LogUpTo(c, e, order, b, wheres, 0) == e && AnswersTo(c, e, order, b, wheres, 0)
  {
  }

  /// Logging depends only on the answers so far.
  lemma {:induction false} LogPrefix(c: Config, e: Engine, order: seq<nat>, b: Buf, ws: seq<Option<nat>>, ws': seq<Option<nat>>, i: nat)
    requires c.Valid() && |ws| == |ws'| == |order| && i <= |order|
    requires forall j :: 0 <= j < |order| ==> order[j] in b.blocks
    requires forall j :: 0 <= j < i ==> ws[j] == ws'[j]
    ensures LogUpTo(c, e, order, b, ws, i) == LogUpTo(c, e, order, b, ws', i)
  {
    hide LogBlock;
    if i > 0 { LogPrefix(c, e, order, b, ws, ws', i - 1); }
  }

  lemma {:induction false} LogStep(c: Config, e: Engine, order: seq<nat>, b: Buf, wheres: seq<Option<nat>>, i: nat, r: Option<nat>, s: Engine)
    requires c.Valid() && |wheres| == |order| && i < |order| && forall j :: 0 <= j < |order| ==> order[j] in b.blocks
    requires AnswersTo(c, e, order, b, wheres, i) && s == LogUpTo(c, e, order, b, wheres, i)
    requires Answer(c, s, r)
    ensures AnswersTo(c, e, order, b, wheres[i := r], i + 1)
    ensures LogUpTo(c, e, order, b, wheres[i := r], i + 1) == LogBlock(c, s, order[i], r, b.key, b.blocks[order[i]])
  {
    hide LogBlock, Answer;
    var ws := wheres[i := r];
    forall j | 0 <= j <= i
      ensures LogUpTo(c, e, order, b, wheres, j) == LogUpTo(c, e, order, b, ws, j)
    {
      LogPrefix(c, e, order, b, wheres, ws, j);
    }
  }
}
