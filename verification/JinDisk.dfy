/** The module as a whole: the objects of every layer, driven by the handlers of the device.  Each
handler is proved equal to one function of the engine, so everything shown of the engine's runs
holds of the objects. */
module JinDisk {
  import opened Common
  import opened Index
  import opened Engine
  import E = Engine
  import opened Victims
  import opened Segments
  import opened SegmentBuffer
  import opened LsmTree
  import opened EngineRuns
  import opened EngineProofs
  import opened EngineTree
  import opened ReadPath
  import opened RangeSearch
  import opened LeafCache
  import opened Catalogue
  import opened Exactness
  import opened Collection
  import opened Memtable
  import opened Tables
  import opened Level
  import opened HandlerSteps
  import opened Ownership

  type ValidConfig = c: Config | c.Valid() witness DefaultConfig(1)

  class JinDisk {
    const c: ValidConfig
    const pool: SegmentBuffer
    const sa: SegmentAllocator
    const svt: SegValidator
    const dst: Dst
    const lsm: LsmTree
    var rit: seq<nat>
    var disk: map<nat, Sealed>
    /// The engine these objects stand for, with its monitor.
    ghost var st: Engine
    /// What the user has written.
    ghost var written: map<nat, Data>
    /// The addresses that collections have freed.
    ghost var freed: set<nat>

    /// Sizes agree between the layers, and the two validity tables are different objects.
    ghost predicate Wired() {
      && pool.bps == c.bps && dst.bps == c.bps && lsm.cap == c.cap && svt.nr == c.nseg
      && svt != lsm.catalogue.bits
    }

    /// The space tables are sound, tied together, and hold these bitmaps and segment bits.
    ghost predicate SpaceIs(used: seq<set<nat>>, table: seq<bool>, tree: seq<Victim>, logging: Option<nat>)
      reads svt, sa, dst
    {
      && svt.Valid() && dst.Valid() && |dst.entries| == svt.nr
      && Tied(svt.table, sa.nrValid, dst.entries, dst.victims, dst.logging)
      && used == Bitmaps(dst.entries) && table == svt.table && tree == dst.victims && logging == dst.logging
    }

    /// As `SpaceIs`, with a segment's node taken out of the tree for collection.
    ghost predicate Popped(seg: nat, used: seq<set<nat>>, table: seq<bool>, tree: seq<Victim>, logging: Option<nat>)
      reads svt, sa, dst
    {
      && svt.Valid() && dst.ValidBut(Some(seg)) && |dst.entries| == svt.nr
      && Tied(svt.table, sa.nrValid, dst.entries, dst.victims, dst.logging)
      && used == Bitmaps(dst.entries) && table == svt.table && tree == dst.victims && logging == dst.logging
      && seg < |table| && table[seg] && (forall w :: w in dst.victims ==> w.segno != seg)
    }

    ghost predicate PoolIs(p: Pool)
      reads pool, pool.buffer
    {
      pool.Valid() && p == pool.Aged() && PoolOk(c, p)
    }

    ghost predicate IndexIs(l: Layers)
      reads lsm`memtable, lsm`immutable, lsm`pending, lsm`spec
      reads lsm.memtable, lsm.immutable, lsm.level0, lsm.level1, lsm.catalogue, lsm.catalogue.bits
    {
      lsm.Valid() && l == lsm.LayersOf()
    }

    ghost predicate TablesAre(e: Engine)
      reads this`rit, this`disk
    {
      e.rit == rit && e.disk == disk && |rit| == c.bps * c.nseg && RitOk(rit)
    }

    /// Some layer breaks its invariant or differs from the engine.
    ghost predicate Damaged()
      reads this, pool, pool.buffer, svt, sa, dst
      reads lsm`memtable, lsm`immutable, lsm`pending, lsm`spec
      reads lsm.memtable, lsm.immutable, lsm.level0, lsm.level1, lsm.catalogue, lsm.catalogue.bits
    {
      !(Wired() && SpaceIs(st.used, st.svt, st.tree, st.logging) && PoolIs(st.pool) && IndexIs(st.ix) && TablesAre(st))
    }

    ghost predicate Valid()
      reads this, pool, pool.buffer, svt, sa, dst
      reads lsm`memtable, lsm`immutable, lsm`pending, lsm`spec
      reads lsm.memtable, lsm.immutable, lsm.level0, lsm.level1, lsm.catalogue, lsm.catalogue.bits
    {
      !Damaged()
    }

    /// While the guards held, the device is the map of what was written; and in any case every stored
    /// record owns its block, unless a collection freed the address.
    ghost predicate Faithful()
      reads this`st, this`written, this`freed
    {
      && (st.ok ==> Inv(c, st, written) && TreeInv(c, st, None))
      && Held(c, st, freed) && Fits(c.bps, st.pool.bufs)
    }

    lemma {:induction false} Parts()
      ensures Valid() <==> Wired() && SpaceIs(st.used, st.svt, st.tree, st.logging) && PoolIs(st.pool) && IndexIs(st.ix) && TablesAre(st)
    {
    }

    lemma {:induction false} FaithIs()
      ensures Faithful() <==>
        (st.ok ==> Inv(c, st, written) && TreeInv(c, st, None)) && Held(c, st, freed) && Fits(c.bps, st.pool.bufs)
    {
    }

    lemma {:induction false} WiredParts()
      ensures Wired() <==>
        && pool.bps == c.bps && dst.bps == c.bps && lsm.cap == c.cap && svt.nr == c.nseg
        && svt != lsm.catalogue.bits
    {
    }

    lemma {:induction false} SpaceParts(used: seq<set<nat>>, table: seq<bool>, tree: seq<Victim>, logging: Option<nat>)
      ensures SpaceIs(used, table, tree, logging) <==>
        && svt.Valid() && dst.Valid() && |dst.entries| == svt.nr
        && Tied(svt.table, sa.nrValid, dst.entries, dst.victims, dst.logging)
        && used == Bitmaps(dst.entries) && table == svt.table && tree == dst.victims && logging == dst.logging
    {
    }

    lemma {:induction false} SpaceFacts(used: seq<set<nat>>, table: seq<bool>, tree: seq<Victim>, logging: Option<nat>)
      requires SpaceIs(used, table, tree, logging)
      ensures dst.bps >= 1 && |dst.entries| == svt.nr == |svt.table|
      ensures forall s :: 0 <= s < |dst.entries| ==> dst.entries[s].nr == |dst.entries[s].bits|
    {
    }

    lemma {:induction false} PoolParts(p: Pool)
      ensures PoolIs(p) <==> pool.Valid() && p == pool.Aged() && PoolOk(c, p)
    {
    }

    lemma {:induction false} IndexParts(l: Layers)
      ensures IndexIs(l) <==> lsm.Valid() && l == lsm.LayersOf()
      ensures lsm.LayersOf().mem == lsm.memtable.tree && lsm.LayersOf().immPending == lsm.pending
    {
      lsm.Layered();
    }

    lemma {:induction false} IndexShape(l: Layers)
      requires IndexIs(l)
      ensures LayersShape(l)
    {
      lsm.Parts();
    }

    lemma {:induction false} TablesParts(e: Engine)
      ensures TablesAre(e) <==> e.rit == rit && e.disk == disk && |rit| == c.bps * c.nseg && RitOk(rit)
    {
    }

    lemma {:induction false} OneMoreIs(x: SegEntry, y: SegEntry, off: nat)
      ensures dst.OneMore(x, y, off) <==> off !in x.bits && (forall i: nat :: i < off ==> i in x.bits) && y == SegEntry(x.nr + 1, x.bits + {off})
    {
    }

    /// The accounting that holds between any two handlers: the allocator's counter is the number of
    /// set segment bits, every stored block count is exact, and a clear segment bit means no valid block.
    lemma {:induction false} Accounting(s: nat)
      requires Valid() && s < c.nseg
      ensures sa.nrValid == Count(svt.table) && |svt.table| == |dst.entries| == c.nseg
      ensures dst.entries[s].nr == |dst.entries[s].bits| <= c.bps
      ensures !svt.table[s] ==> dst.entries[s].bits == {}
      ensures 0 < dst.entries[s].nr < c.bps && dst.logging != Some(s) ==> Find(dst.victims, s).Some?
      ensures Find(dst.victims, s).Some? && dst.logging != Some(s) ==>
        Find(dst.victims, s).value == Victim(s, dst.entries[s].nr, dst.entries[s].bits)
    {
      BitsBound(dst.entries[s].bits, c.bps);
      hide PoolIs, IndexIs, TablesAre;
    }

    lemma {:induction false} AddrIs(seg: nat, off: nat)
      ensures dst.Addr(seg, off) == seg * dst.bps + off
    {
    }

    /// A freshly formatted device.
    constructor (conf: ValidConfig, key: nat, maxLevelFiles: nat)
      requires maxLevelFiles >= 1
      ensures Valid() && Faithful() && c == conf && st == Init(conf, key) && written == map[] && freed == {}
      ensures lsm.level1.capacity == maxLevelFiles && lsm.level0.files == [] && lsm.level1.files == [] && lsm.caches == map[]
    {
      hide *;
      ConfigParts(conf);
      c := conf;
      pool := new SegmentBuffer(conf.bps, conf.slots, key);
      sa := new SegmentAllocator();
      svt := new SegValidator(conf.nseg);
      dst := new Dst(conf.nseg, conf.bps);
      lsm := new LsmTree(conf.cap, maxLevelFiles);
      rit := ZeroedRit(conf.nseg, conf.bps);
      disk := map[];
      st := Init(conf, key);
      written := map[];
      freed := {};
      new;
      InitOk(conf, key);
      InitHeld(conf, key);
      InitIs(conf, key);
      FormattedTables(conf, svt.table, dst.entries);
      NothingTied(svt.table, dst.entries);
      SpaceParts(st.used, st.svt, st.tree, st.logging);
      WiredParts();
      PoolParts(st.pool);
      IndexParts(st.ix);
      TablesParts(st);
      Parts();
      FaithIs();
    }

    /// The reset of a reverse index entry and the return of its block, when it still names the lba.
    method ReleaseBlock(lba: nat, pba: nat)
      requires Wired() && SpaceIs(st.used, st.svt, st.tree, st.logging) && TablesAre(st)
      modifies this`rit, this`st, dst`entries, dst`victims
      ensures SpaceIs(st.used, st.svt, st.tree, st.logging) && TablesAre(st) && st == Release(c, old(st), lba, pba)
    {
      hide *;
      ghost var e := st;
      WiredParts();
      SpaceParts(e.used, e.svt, e.tree, e.logging);
      SpaceFacts(e.used, e.svt, e.tree, e.logging);
      TablesParts(e);
      if pba < |rit| && rit[pba] == lba {
        ghost var es, vs := dst.entries, dst.victims;
        RitSet(rit, pba, INF_ADDR);
        rit := rit[pba := INF_ADDR];
        dst.ReturnBlock(pba);
        ReturnKeeps(es, pba, c.bps, dst.entries);
        TiedBlock(svt.table, sa.nrValid, es, vs, dst.logging, dst.entries, dst.victims);
        st := Release(c, e, lba, pba);
        ReturnClears(c, es, pba, dst.entries);
        ReturnedTree(c, e, es, pba, dst.entries, dst.victims);
        ReleaseDone(c, e, lba, pba, Bitmaps(dst.entries));
        SpaceParts(st.used, st.svt, st.tree, st.logging);
        TablesParts(st);
      } else {
        ReleaseSkips(c, e, lba, pba);
      }
    }

    /// lsm_tree_put with the release of a replaced block.
    method PutRecord(lba: nat, v: Option<Record>)
      requires Valid() && lba < MAX_KEY && (v.Some? ==> !Negative(v.value))
      requires Rotates(st.ix, c.cap, lba, v) ==> !st.ix.immPending
      modifies this`rit, this`st, dst`entries, dst`victims, lsm`memtable, lsm`immutable, lsm`pending, lsm`spec, lsm.memtable
      ensures Valid() && st == E.PutRecord(c, old(st), lba, v)
      ensures lsm.memtable == old(lsm.memtable) || fresh(lsm.memtable)
    {
      hide *;
      ghost var e := st;
      Parts();
      WiredParts();
      IndexParts(e.ix);
      var prev := lsm.Put(lba, v);
      st := e.(ix := lsm.LayersOf());
      TablesParts(e);
      TablesParts(st);
      PutIs(c, e, lba, v, st);
      if prev.Some? {
        ReleaseFrame(c, st, lba, prev.value.pba);
        ReleaseBlock(lba, prev.value.pba);
      }
      IndexParts(st.ix);
      Parts();
    }

    /// rit_set and the sealed contents.  `seen` is for the monitor.
    method SetBlock(lba: nat, pba: nat, key: nat, d: Data, ghost seen: bool)
      requires TablesAre(st) && lba < MAX_KEY
      modifies this`rit, this`st, this`disk
      ensures TablesAre(st) && st == Settled(old(st), lba, pba, key, d, seen)
    {
      hide *;
      TablesParts(st);
      SettledIs(st, lba, pba, key, d, seen);
      st := Settled(st, lba, pba, key, d, seen);
      RitSet(rit, pba, lba);
      if pba < |rit| { rit := rit[pba := lba]; }
      disk := disk[pba := Sealed(key, pba, d)];
      TablesParts(st);
    }

    /// A block gets its record, its reverse index entry and its sealed contents.
    method IssueBlock(lba: nat, pba: nat, key: nat, d: Data)
      requires Valid() && lba < MAX_KEY && pba < INF_ADDR
      requires Rotates(st.ix, c.cap, lba, Some(Record(pba, key))) ==> !st.ix.immPending
      modifies this`rit, this`st, this`disk, dst`entries, dst`victims
      modifies lsm`memtable, lsm`immutable, lsm`pending, lsm`spec, lsm.memtable
      ensures Valid() && st == Issue(c, old(st), lba, pba, key, d)
      ensures lsm.memtable == old(lsm.memtable) || fresh(lsm.memtable)
    {
      hide *;
      Positive(pba, key);
      ghost var e := st;
      PutRecord(lba, Some(Record(pba, key)));
      Parts();
      ghost var seen := !Unseen(e.ix, lba, pba);
      SettledIs(st, lba, pba, key, d, seen);
      IssueIs(c, e, lba, pba, key, d, st);
      SetBlock(lba, pba, key, d, seen);
      Parts();
    }

    /// sa_alloc for a full buffer.
    method TakeFresh() returns (r: Option<nat>)
      requires Valid()
      modifies this`st, sa, svt, dst`entries, dst`victims
      ensures Valid()
      ensures r.None? <==> AllSet(old(st).svt)
      ensures r.None? ==> st == old(st)
      ensures r.Some? ==> r.value < c.nseg && Fresh(old(st), r.value) && st == AllocSegment(c, old(st), r.value)
      ensures r.Some? ==> FirstClear(old(svt.table), old(svt.cur), r.value) && svt.cur == r.value + 1
    {
      hide *;
      ghost var e := st;
      Parts();
      WiredParts();
      SpaceParts(e.used, e.svt, e.tree, e.logging);
      SpaceFacts(e.used, e.svt, e.tree, e.logging);
      TablesParts(e);
      ghost var es := dst.entries;
      r := Alloc(sa, svt, dst);
      if r.Some? {
        st := AllocSegment(c, e, r.value);
        AllocIs(c, e, r.value, es, dst.entries);
      }
      SpaceParts(st.used, st.svt, st.tree, st.logging);
      TablesParts(st);
      Parts();
    }

    /// The loop of segbuf_flush_bios over a freshly taken segment.
    method FillSegment(order: seq<nat>, b: Buf, seg: nat, ghost e: Engine)
      requires Valid() && seg < c.nseg && |order| <= c.bps && Blocks(order, b)
      requires st == FlushUpTo(c, e, order, b, seg, 0) && RoomFor(st.ix, c.cap, |order|)
      modifies this`rit, this`st, this`disk, dst`entries, dst`victims
      modifies lsm`memtable, lsm`immutable, lsm`pending, lsm`spec, lsm.memtable
      ensures Valid() && st == FlushUpTo(c, e, order, b, seg, |order|)
      ensures lsm.memtable == old(lsm.memtable) || fresh(lsm.memtable)
    {
      hide *;
      BlocksIn(order, b);
      for i := 0 to |order|
        invariant Valid() && st == FlushUpTo(c, e, order, b, seg, i) && RoomFor(st.ix, c.cap, |order| - i)
        invariant lsm.memtable == old(lsm.memtable) || fresh(lsm.memtable)
      {
        BlockAt(order, b, i);
        Address(c, seg, i);
        RoomStep(c, st, order[i], PbaOf(c, seg, i), b.key, b.blocks[order[i]], |order| - i);
        FlushStep(c, e, order, b, seg, i + 1);
        IssueBlock(order[i], PbaOf(c, seg, i), b.key, b.blocks[order[i]]);
      }
    }

    /// dst_find_logging_block, as the engine sees it.
    method FindBlock() returns (r: Option<nat>)
      requires Valid()
      modifies this`st, sa, svt, dst
      ensures Valid()
      ensures Answer(c, old(st), r)
      ensures st == if r.Some? then TakeBlockState(c, old(st), r.value) else LeaveFull(c, old(st))
    {
      hide *;
      ghost var e := st;
      Parts();
      WiredParts();
      SpaceParts(e.used, e.svt, e.tree, e.logging);
      SpaceFacts(e.used, e.svt, e.tree, e.logging);
      TablesParts(e);
      ghost var es, cur := dst.entries, svt.cur;
      var off;
      r, off := dst.FindLoggingBlock(svt, sa);
      if r.Some? {
        st := TakeBlockState(c, e, r.value);
        AddrIs(dst.logging.value, off);
        OneMoreIs(es[dst.logging.value], dst.entries[dst.logging.value], off);
        LoggedIs(c, e, dst.logging.value, off, es, dst.entries, r.value, dst.victims, svt.table, cur, svt.cur);
        LogAnswer(c, e, r);
      } else {
        st := LeaveFull(c, e);
        LogFailed(c, e, es);
        LogAnswer(c, e, r);
      }
      SpaceParts(st.used, st.svt, st.tree, st.logging);
      TablesParts(st);
      Parts();
    }

    /// One block of segbuf_threaded_logging.  Without space the block is given up.
    method LogOne(lba: nat, key: nat, d: Data) returns (r: Option<nat>)
      requires Valid() && lba < MAX_KEY && RoomFor(st.ix, c.cap, 1)
      modifies this`rit, this`st, this`disk, sa, svt, dst, lsm`memtable, lsm`immutable, lsm`pending, lsm`spec, lsm.memtable
      ensures Valid() && st == LogBlock(c, old(st), lba, r, key, d)
      ensures Answer(c, old(st), r)
      ensures lsm.memtable == old(lsm.memtable) || fresh(lsm.memtable)
    {
      hide *;
      ghost var e := st;
      r := FindBlock();
      LogAnswer(c, e, r);
      LogBlockIs(c, e, lba, r, key, d);
      if r.Some? {
        RoomStep(c, st, lba, r.value, key, d, 1);
        IssueBlock(lba, r.value, key, d);
      } else {
        Parts();
        TablesParts(st);
        st := LeaveFull(c, e).(ok := false);
        TablesParts(st);
        Parts();
      }
    }

    /// segbuf_threaded_logging.
    method ThreadedLogging(order: seq<nat>, b: Buf, ghost e: Engine) returns (ghost wheres: seq<Option<nat>>)
      requires Valid() && Blocks(order, b) && st == e && RoomFor(st.ix, c.cap, |order|)
      modifies this`rit, this`st, this`disk, sa, svt, dst, lsm`memtable, lsm`immutable, lsm`pending, lsm`spec, lsm.memtable
      ensures Valid() && |wheres| == |order| && (forall j :: 0 <= j < |order| ==> order[j] in b.blocks)
      ensures st == LogUpTo(c, e, order, b, wheres, |order|) && EngineTree.Answers(c, e, order, b, wheres)
      ensures lsm.memtable == old(lsm.memtable) || fresh(lsm.memtable)
    {
      hide *;
      BlocksIn(order, b);
      wheres := NoAnswers(|order|);
      LogStart(c, e, order, b, wheres);
      for i := 0 to |order|
        invariant Valid() && |wheres| == |order| && st == LogUpTo(c, e, order, b, wheres, i)
        invariant RoomFor(st.ix, c.cap, |order| - i) && AnswersTo(c, e, order, b, wheres, i)
        invariant lsm.memtable == old(lsm.memtable) || fresh(lsm.memtable)
      {
        BlockAt(order, b, i);
        RoomLess(st.ix, c.cap, |order| - i);
        ghost var s := st;
        var r := LogOne(order[i], b.key, b.blocks[order[i]]);
        RoomLogged(c, s, order[i], r, b.key, b.blocks[order[i]], |order| - i);
        LogStep(c, e, order, b, wheres, i, r, s);
        wheres := wheres[i := r];
      }
      AnswersAll(c, e, order, b, wheres);
    }

    /// segbuf_flush_bios of the oldest full buffer.
    method FlushBios() returns (ghost s: Step)
      requires Valid() && pool.queue != [] && RoomFor(st.ix, c.cap, c.bps)
      modifies this`rit, this`st, this`disk, sa, svt, dst, lsm`memtable, lsm`immutable, lsm`pending, lsm`spec, lsm.memtable
      ensures s.FlushOldest? && Enabled(c, old(st), s) && 0 < old(st).pool.pending
      ensures s.place.Logging? <==> AllSet(old(svt.table))
      ensures s.place.Segment? ==> FirstClear(old(svt.table), old(svt.cur), s.place.seg) && dst.logging == old(dst.logging)
      ensures Valid() && Flushed(c, old(st), s, st)
      ensures lsm.memtable == old(lsm.memtable) || fresh(lsm.memtable)
    {
      hide *;
      ghost var e := st;
      Parts();
      PoolParts(e.pool);
      SpaceParts(e.used, e.svt, e.tree, e.logging);
      pool.FrontIs();
      var b := pool.buffer[pool.queue[0]];
      var order := InOrder(b.blocks.Keys);
      FrontBuffer(c, e, order);
      var seg := TakeFresh();
      if seg.Some? {
        s := Step.FlushOldest(order, Segment(seg.value));
        FlushedSegment(c, e, order, seg.value, st);
        FillSegment(order, b, seg.value, e);
      } else {
        ghost var wheres := ThreadedLogging(order, b, e);
        s := Step.FlushOldest(order, Logging(wheres));
        FlushedLogging(c, e, order, wheres, st);
      }
    }

    /// bufferio_handler on the oldest full buffer.  It goes to the first clear segment from the cursor on; only
    /// when every segment bit is set is it logged block by block.  When threaded logging found space, the monitor drops
    /// exactly when the flush reissues a freed address whose old record survives.
    method FlushOldest() returns (ghost s: Step)
      requires Valid() && Faithful() && pool.queue != [] && RoomFor(st.ix, c.cap, c.bps)
      modifies this`rit, this`st, this`disk, sa, svt, dst
      modifies lsm`memtable, lsm`immutable, lsm`pending, lsm`spec, lsm.memtable, pool`queue
      ensures s.FlushOldest? && Enabled(c, old(st), s)
      ensures s.place.Logging? <==> AllSet(old(svt.table))
      ensures s.place.Segment? ==> FirstClear(old(svt.table), old(svt.cur), s.place.seg) && dst.logging == old(dst.logging)
      ensures Valid() && Faithful() && st == Apply(c, old(st), s)
      ensures old(st).ok && Room(c, old(st), s) ==> (st.ok <==> !Reissues(c, old(st), freed, s.order, s.place))
      ensures old(st).ok && Room(c, old(st), s) && freed == {} ==> st.ok
    {
      hide *;
      ghost var e := st;
      FaithIs();
      s := FlushBios();
      Parts();
      PoolParts(st.pool);
      FlushedIs(c, e, s, st);
      TablesParts(st);
      var index := pool.Dequeue();
      st := Apply(c, e, s);
      TablesParts(st);
      PoolParts(st.pool);
      Parts();
      FlushMonitor(c, e, s, freed);
      Kept(c, e, s, written, freed);
      FaithIs();
    }

    /// lsm_tree_put of a negative record, which releases nothing.
    method PutNegative(k: nat)
      requires Wired() && IndexIs(st.ix) && k < MAX_KEY
      requires Rotates(st.ix, c.cap, k, None) ==> !st.ix.immPending
      modifies this`st, lsm`memtable, lsm`immutable, lsm`pending, lsm`spec, lsm.memtable
      ensures IndexIs(st.ix) && st == E.PutRecord(c, old(st), k, None)
      ensures lsm.memtable == old(lsm.memtable) || fresh(lsm.memtable)
    {
      hide *;
      ghost var e := st;
      WiredParts();
      IndexParts(e.ix);
      var prev := lsm.Put(k, None);
      PutNoneIs(c, e, k);
      st := E.PutRecord(c, e, k, None);
      IndexParts(st.ix);
    }

    /// segbuf_push_block of a re-queued block.
    method Requeue(lba: nat, d: Data, newKey: nat)
      requires Wired() && PoolIs(st.pool) && lba < MAX_KEY && PoolRoom(c.bps, st.pool, 1)
      modifies this`st, pool`cur, pool`queue, pool.buffer
      ensures PoolIs(st.pool) && st == GcPush(c, old(st), lba, d, newKey)
    {
      hide *;
      ghost var e := st;
      WiredParts();
      PoolParts(e.pool);
      RequeueIs(c, e, lba, d, newKey);
      pool.PushBlock(lba, d, false, newKey);
      st := GcPush(c, e, lba, d, newKey);
      PoolParts(st.pool);
    }

    /// The search of gc_one_segment.
    method Newest(k: nat) returns (r: Option<Record>)
      requires IndexIs(st.ix)
      modifies lsm`caches
      ensures IndexIs(st.ix)
      ensures lsm.caches == PointCaches(st.ix, lsm.level0.files, lsm.level1.files, old(lsm.caches), k)
      ensures r == Lookup(st.ix, k) && (r.Some? ==> k < MAX_KEY)
    {
      hide *;
      IndexParts(st.ix);
      r := lsm.Search(k);
      lsm.Parts();
      LookupKey(st.ix, k);
    }

    /// One set bit of the victim in gc_one_segment; `moved` when the block is queued again.
    method CollectBlock(pba: nat, newKey: nat) returns (moved: bool)
      requires Wired() && IndexIs(st.ix) && PoolIs(st.pool) && TablesAre(st)
      requires RoomFor(st.ix, c.cap, 1) && PoolRoom(c.bps, st.pool, 1)
      modifies this`rit, this`st, pool`cur, pool`queue, pool.buffer
      modifies lsm`memtable, lsm`immutable, lsm`pending, lsm`spec, lsm`caches, lsm.memtable
      ensures IndexIs(st.ix) && PoolIs(st.pool) && TablesAre(st)
      ensures st == GcBlock(c, old(st), pba, newKey)
      ensures moved <==> Reclaims(old(st), pba)
      ensures lsm.caches == AskedFor(old(st), lsm.level0.files, lsm.level1.files, old(lsm.caches), pba)
      ensures lsm.memtable == old(lsm.memtable) || fresh(lsm.memtable)
    {
      hide *;
      ghost var e := st;
      moved := false;
      TablesParts(e);
      PoolParts(e.pool);
      PoolBufs(c, e.pool);
      GcBlockIs(c, e, pba, newKey);
      ReclaimsIs(e, pba);
      Collection.AskedIs(e, lsm.level0.files, lsm.level1.files, lsm.caches, pba);
      if pba >= |rit| { return; }
      var lba := rit[pba];
      RitSet(rit, pba, INF_ADDR);
      rit := rit[pba := INF_ADDR];
      st := e.(rit := rit);
      TablesParts(st);
      var r := Newest(KeyOf(lba));
      if r.None? || r.value.pba != pba { return; }
      RitAt(e.rit, pba);
      RoomNone(c, st.ix, lba, 1);
      PutNoneIs(c, st, lba);
      PutNegative(lba);
      TablesParts(st);
      var plain := if pba in disk then Open(disk[pba], r.value.key, pba) else None;
      if plain.Some? {
        ghost var e2 := st;
        GcPushFrame(c, e2, lba, plain.value, newKey);
        Requeue(lba, plain.value, newKey);
        TablesParts(st);
        moved := true;
      }
    }

    /// The loop of gc_one_segment over the victim's copy of the bitmap.  It counts the blocks that were up
    /// to date and readable when the round began: collecting one does not change another.
    method CollectBlocks(seg: nat, bits: set<nat>, newKey: nat, ghost e: Engine) returns (count: nat)
      requires Wired() && IndexIs(st.ix) && PoolIs(st.pool) && TablesAre(st) && st == e
      requires RoomFor(st.ix, c.cap, c.bps) && PoolRoom(c.bps, st.pool, c.bps)
      modifies this`rit, this`st, pool`cur, pool`queue, pool.buffer
      modifies lsm`memtable, lsm`immutable, lsm`pending, lsm`spec, lsm`caches, lsm.memtable
      ensures IndexIs(st.ix) && PoolIs(st.pool) && TablesAre(st)
      ensures |e.pool.bufs| >= 1 && st == GcUpTo(c, e, seg, bits, newKey, c.bps)
      ensures count == |Reclaimed(c, e, seg, bits, c.bps)|
      ensures lsm.caches == RoundCaches(c, e, lsm.level0.files, lsm.level1.files, old(lsm.caches), seg, bits, newKey, c.bps)
    {
      hide *;
      PoolParts(e.pool);
      PoolBufs(c, e.pool);
      GcStart(c, e, seg, bits, newKey);
      AheadStart(c, e, seg, bits);
      ghost var s0, s1, cs := lsm.level0.files, lsm.level1.files, lsm.caches;
      CachesStart(c, e, s0, s1, cs, seg, bits, newKey);
      count := 0;
      var offset := 0;
      while true
        invariant offset <= c.bps && IndexIs(st.ix) && PoolIs(st.pool) && TablesAre(st)
        invariant st == GcUpTo(c, e, seg, bits, newKey, offset) && |st.pool.bufs| >= 1
        invariant RoomFor(st.ix, c.cap, c.bps - offset) && PoolRoom(c.bps, st.pool, c.bps - offset)
        invariant Ahead(c, e, st, seg, offset) && count == |Reclaimed(c, e, seg, bits, offset)|
        invariant lsm.caches == RoundCaches(c, e, s0, s1, cs, seg, bits, newKey, offset)
        invariant lsm.memtable == old(lsm.memtable) || fresh(lsm.memtable)
        decreases c.bps - offset
      {
        ghost var before := offset;
        offset := NextBit(bits, c.bps, offset);
        GcSkip(c, e, seg, bits, newKey, before, offset);
        AheadSkip(c, e, st, seg, bits, before, offset);
        CachesSkip(c, e, s0, s1, cs, seg, bits, newKey, before, offset);
        if offset == c.bps { return; }
        RoomFewer(c, st, c.bps - before, c.bps - offset);
        ghost var s := st;
        TablesParts(s);
        PoolParts(s.pool);
        RoomFewer(c, s, c.bps - offset, 1);
        IndexShape(s.ix);
        AheadNext(c, e, s, seg, bits, newKey, offset);
        CachesNext(c, e, s0, s1, cs, seg, bits, newKey, offset);
        var moved := CollectBlock(PbaOf(c, seg, offset), newKey);
        if moved { count := count + 1; }
        GcRoom(c, s, PbaOf(c, seg, offset), newKey, c.bps - offset);
        GcNext(c, e, seg, bits, newKey, offset + 1);
        offset := offset + 1;
      }
    }

    /// The retry loop of gc_one_segment.  Nodes of the logging segment are skipped, unless they say that
    /// the segment is empty: that test comes first.
    method PopSegment() returns (r: Option<Victim>)
      requires Wired() && SpaceIs(st.used, st.svt, st.tree, st.logging)
      modifies this`st, dst`victims
      ensures st == AfterPop(old(st)) && (r.None? <==> Poppable(old(st).tree, old(st).logging) == [])
      ensures r.None? ==> SpaceIs(st.used, st.svt, st.tree, st.logging)
      ensures r.Some? ==> Pops(old(st), r.value.segno, r.value.bits)
      ensures r.Some? ==> Popped(r.value.segno, st.used, st.svt, st.tree, st.logging)
      ensures r.Some? ==> forall v :: v in old(dst.victims) && dst.logging != Some(v.segno) ==> r.value.nr <= v.nr
    {
      hide *;
      ghost var e := st;
      SpaceParts(e.used, e.svt, e.tree, e.logging);
      while true
        invariant SpaceIs(e.used, e.svt, dst.victims, e.logging) && st == e && dst.logging == e.logging
        invariant Poppable(dst.victims, e.logging) == Poppable(e.tree, e.logging)
        invariant forall v :: v in old(dst.victims) && v !in dst.victims ==> dst.logging == Some(v.segno)
        decreases |dst.victims|
      {
        ghost var vs := dst.victims;
        SpaceParts(e.used, e.svt, vs, e.logging);
        SpaceFacts(e.used, e.svt, vs, e.logging);
        r := dst.PopVictim();
        if r.None? {
          PopNone(e.logging);
          PopIs(e, []);
          st := AfterPop(e);
          SpaceParts(st.used, st.svt, st.tree, st.logging);
          return;
        }
        PopOne(vs, e.logging);
        NodeSegment(svt.table, sa.nrValid, dst.entries, vs, dst.logging, dst.victims, dst.bps);
        if r.value.nr == 0 || dst.logging != Some(r.value.segno) {
          PopIs(e, vs);
          st := AfterPop(e);
          PoppedParts(r.value.segno, st.used, st.svt, st.tree, st.logging);
          return;
        }
        PopLoggingValid(vs);
        SpaceParts(e.used, e.svt, dst.victims, e.logging);
      }
    }

    /// Without its node the logging segment does not count as popped.
    lemma {:induction false} PopLoggingValid(vs: seq<Victim>)
      requires dst.logging.Some? && dst.ValidBut(dst.logging)
      ensures dst.Valid()
    {
    }

    lemma {:induction false} PoppedParts(seg: nat, used: seq<set<nat>>, table: seq<bool>, tree: seq<Victim>, logging: Option<nat>)
      ensures Popped(seg, used, table, tree, logging) <==>
        && svt.Valid() && dst.ValidBut(Some(seg)) && |dst.entries| == svt.nr
        && Tied(svt.table, sa.nrValid, dst.entries, dst.victims, dst.logging)
        && used == Bitmaps(dst.entries) && table == svt.table && tree == dst.victims && logging == dst.logging
        && seg < |table| && table[seg] && (forall w :: w in dst.victims ==> w.segno != seg)
    {
    }

    lemma {:induction false} PoppedFacts(seg: nat, used: seq<set<nat>>, table: seq<bool>, tree: seq<Victim>, logging: Option<nat>)
      requires Popped(seg, used, table, tree, logging)
      ensures seg < |dst.entries| == svt.nr == |svt.table| == |used|
    {
    }

    /// The end of gc_one_segment, and the counter update of the loop around it.  The structures stay
    /// tied exactly when the segment is not the logging one.
    method GiveBack(seg: nat)
      requires Popped(seg, st.used, st.svt, st.tree, st.logging)
      modifies this`st, svt`table, sa, dst`entries, dst`victims
      ensures st == ReturnSegment(old(st), seg)
      ensures SpaceIs(st.used, st.svt, st.tree, st.logging) <==> dst.logging != Some(seg)
    {
      hide *;
      ghost var e := st;
      PoppedParts(seg, e.used, e.svt, e.tree, e.logging);
      PoppedFacts(seg, e.used, e.svt, e.tree, e.logging);
      ghost var es, vs := dst.entries, dst.victims;
      var ok := dst.ReturnSegment(seg, Some(seg));
      var was := svt.TestAndReturn(seg);
      TiedReturn(e.svt, sa.nrValid, es, vs, dst.logging, seg, dst.victims);
      sa.nrValid := sa.nrValid - 1;
      st := ReturnSegment(e, seg);
      ReturnIs(e, seg, es, dst.entries);
      SpaceParts(st.used, st.svt, st.tree, st.logging);
    }

    /// gc_one_segment after a node was popped: its blocks, then the segment.
    method CollectVictim(v: Victim, newKey: nat) returns (count: nat)
      requires Wired() && IndexIs(st.ix) && PoolIs(st.pool) && TablesAre(st)
      requires Popped(v.segno, st.used, st.svt, st.tree, st.logging)
      requires RoomFor(st.ix, c.cap, c.bps) && PoolRoom(c.bps, st.pool, c.bps)
      modifies this`rit, this`st, svt`table, sa, dst`entries, dst`victims
      modifies lsm`memtable, lsm`immutable, lsm`pending, lsm`spec, lsm`caches, lsm.memtable
      modifies pool`cur, pool`queue, pool.buffer
      ensures IndexIs(st.ix) && PoolIs(st.pool) && TablesAre(st) && |old(st).pool.bufs| >= 1
      ensures st == ReturnSegment(GcUpTo(c, old(st), v.segno, v.bits, newKey, c.bps), v.segno)
      ensures SpaceIs(st.used, st.svt, st.tree, st.logging) <==> dst.logging != Some(v.segno)
      ensures count == |Reclaimed(c, old(st), v.segno, v.bits, c.bps)|
      ensures lsm.caches ==
        RoundCaches(c, old(st), lsm.level0.files, lsm.level1.files, old(lsm.caches), v.segno, v.bits, newKey, c.bps)
    {
      hide *;
      ghost var e := st;
      WiredParts();
      PoolParts(e.pool);
      PoolBufs(c, e.pool);
      count := CollectBlocks(v.segno, v.bits, newKey, e);
      GcUpToSpace(c, e, v.segno, v.bits, newKey, c.bps);
      TablesParts(st);
      ReturnFrame(st, v.segno);
      GiveBack(v.segno);
      TablesParts(st);
    }

    /// gc_one_segment, with the counter update of the loop around it.  It answers how many blocks it queued
    /// again, which is how many were live in the segment while the guards held.  Handing back the logging segment,
    /// which happens exactly when its node says that it is empty, leaves the device damaged.
    method CollectSegment(newKey: nat) returns (count: Option<nat>, ghost s: Step)
      requires Valid() && Faithful()
      requires RoomFor(st.ix, c.cap, c.bps) && PoolRoom(c.bps, st.pool, c.bps)
      modifies this`rit, this`st, this`freed, svt`table, sa, dst`entries, dst`victims
      modifies lsm`memtable, lsm`immutable, lsm`pending, lsm`spec, lsm`caches, lsm.memtable
      modifies pool`cur, pool`queue, pool.buffer
      ensures Enabled(c, old(st), s) && st == Apply(c, old(st), s) && Faithful() && freed == old(freed) + FreedBy(c, s)
      ensures count.Some? <==> s.Collect?
      ensures count.None? <==> s.NothingToCollect?
      ensures s.Collect? ==> count == Some(|Reclaimed(c, old(st), s.seg, s.bits, c.bps)|)
      ensures s.Collect? && old(st).ok && old(dst.logging) != Some(s.seg) ==> count == Some(|LiveOffsets(c, old(st), s.seg)|)
      ensures Valid() <==> !(s.Collect? && old(dst.logging) == Some(s.seg))
      ensures s.Collect? ==> |old(st).pool.bufs| >= 1
      ensures lsm.caches == if s.Collect? then
        RoundCaches(c, RoundStart(old(st), s.seg), lsm.level0.files, lsm.level1.files, old(lsm.caches), s.seg, s.bits, newKey, c.bps)
        else old(lsm.caches)
    {
      hide *;
      ghost var e := st;
      Parts();
      WiredParts();
      FaithIs();
      PoolParts(e.pool);
      PoolBufs(c, e.pool);
      SpaceParts(e.used, e.svt, e.tree, e.logging);
      TablesParts(e);
      var r := PopSegment();
      PopFrame(e);
      if r.None? {
        s, count := Step.NothingToCollect, None;
        NothingIs(c, e);
      } else {
        var v := r.value;
        s := Step.Collect(v.segno, v.bits, newKey);
        RoundIs(c, e, written, v.segno, v.bits, newKey);
        st := RoundStart(e, v.segno);
        TablesParts(st);
        var n := CollectVictim(v, newKey);
        count := Some(n);
      }
      Kept(c, e, s, written, freed);
      freed := freed + FreedBy(c, s);
      TablesParts(st);
      Parts();
      FaithIs();
    }

    /// The block returns for the old records a major compaction dropped.
    method ReleaseOld(att: seq<Entry>)
      requires Wired() && SpaceIs(st.used, st.svt, st.tree, st.logging) && TablesAre(st)
      modifies this`rit, this`st, dst`entries, dst`victims
      ensures SpaceIs(st.used, st.svt, st.tree, st.logging) && TablesAre(st) && st == ReleaseAll(c, old(st), att)
    {
      hide *;
      ghost var e := st;
      ReleaseStart(c, e, att);
      for i := 0 to |att|
        invariant SpaceIs(st.used, st.svt, st.tree, st.logging) && TablesAre(st) && st == ReleaseAll(c, e, att[..i])
      {
        ReleaseNext(c, e, att, i);
        ReleaseBlock(att[i].key, att[i].rec.pba);
      }
      ReleaseEnd(att);
    }

    /// minor_compaction_handler.  `done` is false when the nested major compaction would complete
    /// an empty file; nothing has changed then.  Otherwise exactly the addresses of the old records that level 0
    /// overwrites, and that the reverse index still gives to their blocks, are free afterwards.
    method Compact() returns (done: bool, ghost s: Step)
      requires Valid() && Faithful() && lsm.pending
      requires lsm.level0.files != [] ==> |lsm.level1.files| < lsm.level1.capacity
      modifies this`rit, this`st, dst`entries, dst`victims
      modifies lsm`pending, lsm`caches, lsm.catalogue, lsm.catalogue.bits, lsm.level0, lsm.level1
      ensures Valid() && Faithful()
      ensures done ==> s.Compaction? && Enabled(c, old(st), s) && st == Apply(c, old(st), s)
      ensures !done ==> st == old(st)
      ensures done ==> |rit| == |old(rit)| && forall p :: 0 <= p < |rit| ==>
        rit[p] == if Retired(old(rit), old(lsm.LayersOf()), p) then INF_ADDR else old(rit)[p]
      ensures done ==> forall p :: 0 <= p < |rit| ==>
        (UsedBit(c, Bitmaps(dst.entries), p) <==>
          UsedBit(c, Bitmaps(old(dst.entries)), p) && !Retired(old(rit), old(lsm.LayersOf()), p))
      ensures done ==> Carried(old(lsm.caches), old(lsm.level0.files + lsm.level1.files), lsm.level0.files, lsm.level1.files, lsm.caches)
      ensures !done ==> lsm.caches == old(lsm.caches)
      ensures st.ok == old(st).ok
    {
      hide *;
      ghost var e := st;
      s := Step.Compaction(map[], []);
      FaithIs();
      Parts();
      WiredParts();
      IndexParts(e.ix);
      SpaceParts(e.used, e.svt, e.tree, e.logging);
      TablesParts(e);
      var att;
      ghost var p, q;
      done, att, p, q := lsm.MinorCompaction();
      if done {
        ghost var l1' := LevelTable(lsm.level1.files);
        s := Step.Compaction(l1', att);
        CompactIs(c, e, l1', att);
        ReleaseOld(att);
        TablesParts(st);
        st := Apply(c, e, s);
        TablesParts(st);
        StaysUp(c, e, s);
        Kept(c, e, s, written, freed);
        CompactFrees(c, e, l1', att);
        SpaceParts(st.used, st.svt, st.tree, st.logging);
      }
      IndexParts(st.ix);
      Parts();
      FaithIs();
    }

    /// A write request of one block.
    method Write(lba: nat, d: Data, newKey: nat)
      requires Valid() && Faithful() && lba < MAX_KEY && PoolRoom(c.bps, st.pool, 1)
      modifies this`st, this`written, pool`cur, pool`queue, pool.buffer
      ensures Valid() && Faithful() && st == Apply(c, old(st), Step.Write(lba, d, newKey))
      ensures written == old(written)[lba := d] && st.ok == old(st).ok
    {
      hide *;
      ghost var e := st;
      Parts();
      WiredParts();
      FaithIs();
      PoolParts(e.pool);
      WriteIs(c, e, lba, d, newKey);
      PoolBufs(c, e.pool);
      StaysUp(c, e, Step.Write(lba, d, newKey));
      Kept(c, e, Step.Write(lba, d, newKey), written, freed);
      pool.PushBlock(lba, d, true, newKey);
      TablesParts(e);
      st := Apply(c, e, Step.Write(lba, d, newKey));
      written := written[lba := d];
      TablesParts(st);
      PoolParts(st.pool);
      Parts();
      FaithIs();
    }

    /// The first half of jindisk_do_read: blocks the pool has are served at once, those with a record
    /// are collected.
    method CollectPages(start: nat, count: nat, results: map<nat, Record>) returns (blks: seq<BlkInfo>, pages: seq<Option<Data>>)
      requires PoolIs(st.pool)
      ensures |pages| == count && Collected(st, start, count, results, blks, pages)
    {
      hide *;
      PoolParts(st.pool);
      blks, pages := [], NoPages(count);
      CollectNone(st, start, results, pages);
      for i := 0 to count
        invariant |pages| == count && Collected(st, start, i, results, blks, pages)
      {
        var data := pool.QueryBlock(start + i);
        CollectOne(st, start, i, results, blks, pages);
        WantedIs(st, start, results, i);
        pages := pages[i := data];
        if data.None? && start + i in results && !Negative(results[start + i]) {
          blks := blks + [BlkInfo(start + i, results[start + i], i)];
        }
      }
    }

    /// jindisk_do_read of whole blocks.  While the guards held, a block comes out as last written exactly
    /// when the pool has it or the range search does not misread it, which depends on the files and their
    /// leaf caches as they are before the request.
    method ReadRequest(start: nat, count: nat) returns (pages: seq<Option<Data>>)
      requires Valid() && Faithful() && count >= 1 && start + count <= MAX_KEY
      modifies lsm`caches
      ensures Valid() && |pages| == count
      ensures SameCaches(lsm.caches, RangeCaches(st.ix, lsm.level0.files, lsm.level1.files, old(lsm.caches), start, start + count - 1))
      ensures st.ok ==> forall i :: 0 <= i < count ==>
        (pages[i] == (if start + i in written then Some(written[start + i]) else None) <==>
          Query(st.pool.bufs, start + i).Some? ||
          !Misread(st.ix, lsm.level0.files, lsm.level1.files, old(lsm.caches), start, start + count - 1, start + i))
    {
      hide *;
      Parts();
      FaithIs();
      IndexParts(st.ix);
      IndexFiles(st.ix);
      TablesParts(st);
      ghost var cs, end := lsm.caches, start + count - 1;
      var results := Range(lsm, start, start + count - 1);
      var blks;
      blks, pages := CollectPages(start, count, results);
      ghost var before := pages;
      CollectedPages(st, start, count, results, blks, pages);
      pages := FetchRuns(disk, blks, pages);
      DeliveredSize(st.disk, blks, |blks|, before, pages);
      forall i | 0 <= i < count && st.ok
        ensures pages[i] == (if start + i in written then Some(written[start + i]) else None) <==>
          Query(st.pool.bufs, start + i).Some? || !Misread(st.ix, lsm.level0.files, lsm.level1.files, cs, start, end, start + i)
      {
        PageArrives(st, start, count, results, blks, before, pages, i);
        RequestExact(c, st, written, lsm.level0.files, lsm.level1.files, cs, start, end, results, start + i);
      }
    }

    lemma {:induction false} IndexFiles(l: Layers)
      requires IndexIs(l)
      ensures l.l0 == Level0(lsm.level0.files) && l.l1 == LevelTable(lsm.level1.files) && Disjoint(lsm.level1.files)
      ensures lsm.level0.files != [] ==> FileOk(lsm.level0.files[0])
      ensures forall i :: 0 <= i < |lsm.level1.files| ==> FileOk(lsm.level1.files[i])
    {
      lsm.Parts();
      LevelsTables(lsm.catalogue.bits.table, lsm.catalogue.maxVersion, lsm.level0.files, lsm.level1.files, lsm.cap, lsm.level1.capacity);
      hide Refines, LayersShape, LevelTable, Stocked;
    }
  }
}
