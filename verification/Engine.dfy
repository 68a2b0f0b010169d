/** The storage engine as one state machine.

The state is the write-back pool, the index, the reverse index, the block bitmaps, the
segment bits and the sealed blocks on the device.  Each handler of the module is one
function on that state; a loop of a handler is a recursive function with one block per
step.  The flag `ok` is a monitor: it drops, and stays down, when a handler meets a
situation the code does not guard against (README, "Guards"). */
module Engine {
  import opened Common
  import opened Index
  import V = Victims

  datatype Config = Config(bps: nat, nseg: nat, slots: nat, cap: nat) {
    predicate Valid() {
      bps >= 1 && slots >= 2 && cap >= 1 && bps * nseg <= INF_ADDR
    }
  }

  /// The constants of the module; the number of segments depends on the device.
  function DefaultConfig(nseg: nat): Config {
    Config(1024, nseg, 4, 131072)
  }

  datatype Buf = Buf(key: nat, blocks: map<nat, Data>)

  /// Newest buffer first.  Buffers 1..pending are full and queued for flushing, later ones are flushed.
  datatype Pool = Pool(bufs: seq<Buf>, pending: nat)

  /// `used` are the bitmaps of the segments, `tree` the victims in tree order, `logging` the segment
  /// that threaded logging writes to.
  datatype Engine = Engine(pool: Pool, ix: Layers, rit: seq<nat>, used: seq<set<nat>>, tree: seq<V.Victim>,
                           logging: Option<nat>, svt: seq<bool>, disk: map<nat, Sealed>, ok: bool)

  // ---------------------------------------------------------------- pool

  /// Pool lookup, newest buffer first (segbuf_query_block).
  function Query(bufs: seq<Buf>, k: nat): Option<Data> {
    if bufs == [] then None
    else if k in bufs[0].blocks then Some(bufs[0].blocks[k])
    else Query(bufs[1..], k)
  }

  /// The block sits in the current buffer or in one that is still queued.
  predicate Unflushed(p: Pool, k: nat) {
    exists a :: 0 <= a <= p.pending && a < |p.bufs| && k in p.bufs[a].blocks
  }

  /// Rotation: a fresh buffer in front, the oldest one dropped.
  function RotatePool(bufs: seq<Buf>, newKey: nat): seq<Buf>
    requires |bufs| >= 1
  {
    [Buf(newKey, map[])] + bufs[..|bufs| - 1]
  }

  function Fill(b: Buf, lba: nat, d: Data): Buf {
    b.(blocks := b.blocks[lba := d])
  }

  /// Puts one block in the current buffer and rotates when that fills it.
  function PushPool(bps: nat, p: Pool, lba: nat, d: Data, newKey: nat): Pool
    requires |p.bufs| >= 1
  {
    var bufs := [Fill(p.bufs[0], lba, d)] + p.bufs[1..];
    if |bufs[0].blocks| >= bps then Pool(RotatePool(bufs, newKey), p.pending + 1)
    else p.(bufs := bufs)
  }

  /// The slot that a rotation recycles is not still waiting to be flushed.
  predicate RoomToRotate(bps: nat, p: Pool, lba: nat, d: Data)
    requires |p.bufs| >= 1
  {
    |Fill(p.bufs[0], lba, d).blocks| >= bps ==> p.pending + 1 < |p.bufs|
  }

  function Push(c: Config, e: Engine, lba: nat, d: Data, newKey: nat): Engine
    requires |e.pool.bufs| >= 1
  {
    e.(pool := PushPool(c.bps, e.pool, lba, d, newKey),
       ok := e.ok && RoomToRotate(c.bps, e.pool, lba, d))
  }

  // ---------------------------------------------------------------- index updates

  function SegOf(c: Config, pba: nat): nat
    requires c.Valid()
  {
    pba / c.bps
  }

  function OffOf(c: Config, pba: nat): nat
    requires c.Valid()
  {
    pba % c.bps
  }

  function PbaOf(c: Config, seg: nat, off: nat): nat {
    seg * c.bps + off
  }

  predicate UsedBit(c: Config, used: seq<set<nat>>, pba: nat)
    requires c.Valid()
  {
    SegOf(c, pba) < |used| && OffOf(c, pba) in used[SegOf(c, pba)]
  }

  function ClearBit(c: Config, used: seq<set<nat>>, pba: nat): seq<set<nat>>
    requires c.Valid()
  {
    if SegOf(c, pba) < |used|
    then used[SegOf(c, pba) := used[SegOf(c, pba)] - {OffOf(c, pba)}] else used
  }

  function SetBit(c: Config, used: seq<set<nat>>, pba: nat): seq<set<nat>>
    requires c.Valid()
  {
    if SegOf(c, pba) < |used|
    then used[SegOf(c, pba) := used[SegOf(c, pba)] + {OffOf(c, pba)}] else used
  }

  /// The table entry of a bitmap.
  function EntryOf(bits: set<nat>): V.SegEntry {
    V.SegEntry(|bits|, bits)
  }

  /// The victim tree after dst_return_block: the node of the segment is refreshed, unless the segment
  /// had no valid block to begin with.
  function ReturnTree(c: Config, e: Engine, pba: nat): seq<V.Victim>
    requires c.Valid()
  {
    var s := SegOf(c, pba);
    if s < |e.used| && e.used[s] != {} then V.Update(e.tree, s, EntryOf(e.used[s] - {OffOf(c, pba)}), c.bps) else e.tree
  }

  /// Release of a replaced block: only when the reverse index still names the same lba.
  function Release(c: Config, e: Engine, lba: nat, pba: nat): Engine
    requires c.Valid()
  {
    if pba < |e.rit| && e.rit[pba] == lba
    then e.(rit := e.rit[pba := INF_ADDR], used := ClearBit(c, e.used, pba), tree := ReturnTree(c, e, pba))
    else e
  }

  /// lsm_tree_put.
  function PutRecord(c: Config, e: Engine, lba: nat, v: Option<Record>): Engine
    requires c.Valid()
  {
    var prev := Replaced(e.ix.mem, lba, v);
    var e1 := e.(ix := Put(e.ix, c.cap, lba, v),
                 ok := e.ok && (Rotates(e.ix, c.cap, lba, v) ==> !e.ix.immPending));
    if prev.Some? then Release(c, e1, lba, prev.value.pba) else e1
  }

  /// Gives a block an address it already owns: index record, reverse index, sealed contents.
  function Issue(c: Config, e: Engine, lba: nat, pba: nat, key: nat, d: Data): Engine
    requires c.Valid()
  {
    var e1 := PutRecord(c, e.(ok := e.ok && Unseen(e.ix, lba, pba)), lba, Some(Record(pba, key)));
    e1.(rit := if pba < |e1.rit| then e1.rit[pba := lba] else e1.rit,
        disk := e1.disk[pba := Sealed(key, pba, d)])
  }

  // ---------------------------------------------------------------- flushing

  /// sa_alloc of a segment whose bit is clear.
  function AllocSegment(c: Config, e: Engine, seg: nat): Engine {
    if seg < |e.svt| && seg < |e.used|
    then e.(svt := e.svt[seg := true], used := e.used[seg := Below(c.bps)], tree := V.Remove(e.tree, seg)) else e
  }

  /// The first `i` blocks of a full buffer, in lba order, written to a fresh segment.
  function FlushUpTo(c: Config, e: Engine, order: seq<nat>, b: Buf, seg: nat, i: nat): Engine
    requires c.Valid() && i <= |order| && forall j :: 0 <= j < |order| ==> order[j] in b.blocks
  {
    if i == 0 then AllocSegment(c, e, seg)
    else Issue(c, FlushUpTo(c, e, order, b, seg, i - 1), order[i-1], PbaOf(c, seg, i - 1),
               b.key, b.blocks[order[i-1]])
  }

  /// find_logging_block first leaves a logging segment that is full.
  function LeaveFull(c: Config, e: Engine): Engine {
    if e.logging.Some? && e.logging.value < |e.used| && |e.used[e.logging.value]| >= c.bps
    then e.(tree := V.Remove(e.tree, e.logging.value), logging := None) else e
  }

  /// Without a logging segment it takes the victim with the most valid blocks, or a fresh segment when
  /// there is no victim.
  function ChooseLogging(e: Engine, seg: nat): Engine {
    if e.logging.Some? then e
    else e.(logging := Some(seg), tree := V.Remove(e.tree, seg),
            svt := if e.tree == [] && seg < |e.svt| then e.svt[seg := true] else e.svt)
  }

  /// The state in which find_logging_block has handed out a block.
  function TakeBlockState(c: Config, e: Engine, pba: nat): Engine
    requires c.Valid()
  {
    var e1 := ChooseLogging(LeaveFull(c, e), SegOf(c, pba));
    e1.(used := SetBit(c, e1.used, pba))
  }

  /// What find_logging_block may hand out: the first clear block of the logging segment, which is kept
  /// while it has room, and otherwise the last victim, or a segment whose bit is clear.
  ghost predicate MayLog(c: Config, e: Engine, pba: nat)
    requires c.Valid()
  {
    var e0, seg := LeaveFull(c, e), SegOf(c, pba);
    && pba < c.nseg * c.bps && !UsedBit(c, e.used, pba)
    && (seg < |e.used| ==> forall o: nat :: o < OffOf(c, pba) ==> o in e.used[seg])
    && (if e0.logging.Some? then e0.logging == Some(seg)
        else if e0.tree != [] then e0.tree[|e0.tree|-1].segno == seg
        else seg < |e0.svt| && !e0.svt[seg])
  }

  /// When it fails: no logging segment with room, no victim, no clear segment.
  ghost predicate NoSpace(c: Config, e: Engine) {
    var e0 := LeaveFull(c, e);
    e0.logging.None? && e0.tree == [] && forall s :: 0 <= s < |e0.svt| ==> e0.svt[s]
  }

  /// One block of threaded logging: `where` is the answer of find_logging_block.
  function LogBlock(c: Config, e: Engine, lba: nat, where: Option<nat>, key: nat, d: Data): Engine
    requires c.Valid()
  {
    if where.None? then LeaveFull(c, e).(ok := false)
    else Issue(c, TakeBlockState(c, e, where.value), lba, where.value, key, d)
  }

  function LogUpTo(c: Config, e: Engine, order: seq<nat>, b: Buf, wheres: seq<Option<nat>>, i: nat): Engine
    requires c.Valid() && i <= |order| && |wheres| == |order|
    requires forall j :: 0 <= j < |order| ==> order[j] in b.blocks
  {
    if i == 0 then e
    else LogBlock(c, LogUpTo(c, e, order, b, wheres, i - 1), order[i-1], wheres[i-1],
                  b.key, b.blocks[order[i-1]])
  }

  /// Tree order: strictly ascending, exactly the members of `s`.
  ghost predicate IsOrder(order: seq<nat>, s: set<nat>) {
    && (forall i, j :: 0 <= i < j < |order| ==> order[i] < order[j])
    && (forall i :: 0 <= i < |order| ==> order[i] in s)
    && (forall x :: x in s ==> x in order)
  }

  /// Where the allocator puts a full buffer: a fresh segment, or single blocks.
  datatype Place = Segment(seg: nat) | Logging(wheres: seq<Option<nat>>)

  /// segbuf_flush_bios of the oldest queued buffer, whose tree order is `order`.
  ghost function Flush(c: Config, e: Engine, order: seq<nat>, place: Place): Engine
    requires c.Valid() && 0 < e.pool.pending < |e.pool.bufs|
    requires IsOrder(order, e.pool.bufs[e.pool.pending].blocks.Keys)
    requires place.Logging? ==> |place.wheres| == |order|
  {
    var b := e.pool.bufs[e.pool.pending];
    var e1 := match place
      case Segment(seg) => FlushUpTo(c, e, order, b, seg, |order|)
      case Logging(wheres) => LogUpTo(c, e, order, b, wheres, |order|);
    e1.(pool := e1.pool.(pending := e.pool.pending - 1))
  }

  // ---------------------------------------------------------------- garbage collection

  /// Truncation of an lba to a 32-bit key.
  function KeyOf(lba: nat): nat {
    lba % KEY_SPACE
  }

  /// Re-queues a live block unless the pool already has one for that lba.
  function GcPush(c: Config, e: Engine, lba: nat, d: Data, newKey: nat): Engine
    requires |e.pool.bufs| >= 1
  {
    if Query(e.pool.bufs, lba).Some? then e.(ok := e.ok && Unflushed(e.pool, lba))
    else Push(c, e, lba, d, newKey)
  }

  /// One set bit of the victim's bitmap.
  function GcBlock(c: Config, e: Engine, pba: nat, newKey: nat): Engine
    requires c.Valid() && |e.pool.bufs| >= 1
  {
    if pba >= |e.rit| then e
    else
      var lba := e.rit[pba];
      var e1 := e.(rit := e.rit[pba := INF_ADDR]);
      var r := Lookup(e.ix, KeyOf(lba));
      if r.None? || r.value.pba != pba then e1
      else
        var e2 := PutRecord(c, e1, KeyOf(lba), None);
        var plain := if pba in e.disk then Open(e.disk[pba], r.value.key, pba) else None;
        if plain.None? then e2 else GcPush(c, e2, lba, plain.value, newKey)
  }

  /// The blocks of the victim below offset `o`, in ascending order.
  function GcUpTo(c: Config, e: Engine, seg: nat, bits: set<nat>, newKey: nat, o: nat): Engine
    requires c.Valid() && |e.pool.bufs| >= 1
    ensures |GcUpTo(c, e, seg, bits, newKey, o).pool.bufs| == |e.pool.bufs|
  {
    if o == 0 then e
    else
      var e1 := GcUpTo(c, e, seg, bits, newKey, o - 1);
      if o - 1 in bits then GcBlock(c, e1, PbaOf(c, seg, o - 1), newKey) else e1
  }

  /// Hands the whole segment back (return_segment, then test_and_return).
  function ReturnSegment(e: Engine, seg: nat): Engine {
    e.(used := if seg < |e.used| then e.used[seg := {}] else e.used,
       tree := V.Remove(e.tree, seg),
       svt := if seg < |e.svt| then e.svt[seg := false] else e.svt)
  }

  /// The victims in the order gc_one_segment pops them: a node of the logging segment is skipped, but
  /// only when it does not say that the segment is empty.
  function Poppable(tree: seq<V.Victim>, logging: Option<nat>): seq<V.Victim> {
    if tree != [] && tree[0].nr > 0 && logging == Some(tree[0].segno) then Poppable(tree[1..], logging) else tree
  }

  /// gc_one_segment pops this node.
  predicate Pops(e: Engine, seg: nat, bits: set<nat>) {
    var t := Poppable(e.tree, e.logging);
    t != [] && t[0].segno == seg && t[0].bits == bits
  }

  function AfterPop(e: Engine): Engine {
    var t := Poppable(e.tree, e.logging);
    e.(tree := if t == [] then [] else t[1..])
  }

  /// A whole round on one victim; `bits` is the victim's copy of the bitmap.
  function Gc(c: Config, e: Engine, seg: nat, bits: set<nat>, newKey: nat): Engine
    requires c.Valid() && |e.pool.bufs| >= 1
  {
    ReturnSegment(GcUpTo(c, AfterPop(e).(ok := e.ok && e.logging != Some(seg)), seg, bits, newKey, c.bps), seg)
  }

  // ---------------------------------------------------------------- compaction

  /// Tries to release the block of every listed old record.
  function ReleaseAll(c: Config, e: Engine, att: seq<Entry>): Engine
    requires c.Valid()
  {
    if att == [] then e
    else
      var n := |att| - 1;
      Release(c, ReleaseAll(c, e, att[..n]), att[n].key, att[n].rec.pba)
  }

  /// What one compaction does: the new level 1, and the old records whose block it tries to release,
  /// namely the last record of every key that level 0 overwrites.
  ghost predicate CompactionOk(l: Layers, l1': Table, att: seq<Entry>) {
    && TableOk(l1')
    && (l.l0.Some? ==> MergedValues(l.l0.value, l.l1, l1'))
    && (forall a :: a in att ==> Attempt(TableOf(l.l0), l.l1, a))
    && (forall k :: Overwritten(TableOf(l.l0), l.l1, k) ==> Entry(k, LastRecord(l.l1[k])) in att)
  }

  predicate Attempt(f: Table, g: Table, a: Entry) {
    Overwritten(f, g, a.key) && a.rec == LastRecord(g[a.key])
  }

  /// Minor compaction with its nested major compaction.
  ghost function Compact(c: Config, e: Engine, l1': Table, att: seq<Entry>): Engine
    requires c.Valid() && CompactionOk(e.ix, l1', att)
  {
    ReleaseAll(c, e, att).(ix := Minor(e.ix, l1'))
  }

  // ---------------------------------------------------------------- reading

  /// A whole-block read: the pool, then the index, then the device.
  function Read(e: Engine, k: nat): Option<Data> {
    var q := Query(e.pool.bufs, k);
    if q.Some? then q
    else
      var r := Lookup(e.ix, k);
      if r.None? || Negative(r.value) || r.value.pba !in e.disk then None
      else Open(e.disk[r.value.pba], r.value.key, r.value.pba)
  }
}
