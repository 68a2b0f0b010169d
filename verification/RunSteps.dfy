/** What the handlers do to concrete states: rounds of writes, flushes and collections with two blocks
per segment, the bricks of the runs in Guards. */
module RunSteps {
  import opened Common
  import opened Index
  import opened Engine
  import opened Victims
  import opened EngineTree
  import opened EngineRuns
  import S = Segments

  // ---------------------------------------------------------------- runs

  /// Some run of the handlers from a formatted device ends in `e`, and its writes made the map `spec`.
  ghost predicate Reachable(c: Config, e: Engine, spec: map<nat, Data>)
    requires c.Valid()
  {
    exists es, steps :: Reaches(c, es, steps, e, spec)
  }

  ghost predicate Reaches(c: Config, es: seq<Engine>, steps: seq<Step>, e: Engine, spec: map<nat, Data>)
    requires c.Valid()
  {
    Execution(c, 7, es, steps) && es[|steps|] == e && SpecAfter(steps) == spec
  }

  lemma {:induction false} Begin(c: Config)
    requires c.Valid()
    ensures Reachable(c, Init(c, 7), map[])
  {
    assert Reaches(c, [Init(c, 7)], [], Init(c, 7), map[]);
  }

  lemma {:induction false} Go(c: Config, e: Engine, spec: map<nat, Data>, s: Step)
    requires c.Valid() && Reachable(c, e, spec) && Enabled(c, e, s)
    ensures Reachable(c, Apply(c, e, s), SpecStep(spec, s))
  {
    var es, steps :| Reaches(c, es, steps, e, spec);
    var e1, n := Apply(c, e, s), |steps|;
    var es1, steps1 := es + [e1], steps + [s];
    hide Enabled, Apply, SpecStep;
    assert steps1[..n] == steps;
    forall i | 0 <= i < |steps1| ensures Enabled(c, es1[i], steps1[i]) && es1[i+1] == Apply(c, es1[i], steps1[i]) {
      if i < n { assert es1[i] == es[i] && es1[i+1] == es[i+1] && steps1[i] == steps[i]; }
    }
    assert Reaches(c, es1, steps1, e1, SpecStep(spec, s));
  }

  // ---------------------------------------------------------------- handlers with two blocks per segment

  lemma {:induction false} Pair(a: nat, x: Data, b: nat, d: Data)
    requires a != b
    ensures var m := map[a := x, b := d]; map[a := x][b := d] == m && |m| == 2 && m.Keys == {a, b} && m[a] == x && m[b] == d
    ensures a < b ==> IsOrder([a, b], {a, b})
  {
    var m := map[a := x, b := d];
    assert m.Keys == {a, b};
    assert |m| == |m.Keys|;
  }

  lemma {:induction false} PushHalf(c: Config, e: Engine, a: nat, d: Data, newKey: nat)
    requires c.bps == 2 && |e.pool.bufs| >= 1 && e.pool.bufs[0].blocks == map[]
    ensures Push(c, e, a, d, newKey) ==
      e.(pool := e.pool.(bufs := [Buf(e.pool.bufs[0].key, map[a := d])] + e.pool.bufs[1..]))
  {
    assert |map[a := d]| == 1;
  }

  lemma {:induction false} PushFull(c: Config, e: Engine, a: nat, x: Data, b: nat, d: Data, newKey: nat)
    requires c.bps == 2 && |e.pool.bufs| == c.slots >= 2 && e.pool.pending == 0 && e.pool.bufs[0].blocks == map[a := x] && a != b
    ensures var bufs := [Buf(newKey, map[]), Buf(e.pool.bufs[0].key, map[a := x, b := d])] + e.pool.bufs[1..c.slots - 1];
      Push(c, e, b, d, newKey) == e.(pool := Pool(bufs, 1))
  {
    Pair(a, x, b, d);
    var f := Fill(e.pool.bufs[0], b, d);
    assert f == Buf(e.pool.bufs[0].key, map[a := x, b := d]);
    assert ([f] + e.pool.bufs[1..])[..c.slots - 1] == [f] + e.pool.bufs[1..c.slots - 1];
  }

  /// A write that leaves the current buffer half full.
  lemma {:induction false} WriteHalf(c: Config, e: Engine, spec: map<nat, Data>, a: nat, d: Data, newKey: nat)
    requires c.Valid() && c.bps == 2 && Reachable(c, e, spec) && a < MAX_KEY
    requires |e.pool.bufs| >= 1 && e.pool.bufs[0].blocks == map[]
    ensures Reachable(c, e.(pool := e.pool.(bufs := [Buf(e.pool.bufs[0].key, map[a := d])] + e.pool.bufs[1..])), spec[a := d])
  {
    hide *;
    PushHalf(c, e, a, d, newKey);
    WriteIs(c, e, spec, a, d, newKey);
    Go(c, e, spec, Write(a, d, newKey));
  }

  lemma {:induction false} WriteIs(c: Config, e: Engine, spec: map<nat, Data>, a: nat, d: Data, newKey: nat)
    requires c.Valid() && a < MAX_KEY && |e.pool.bufs| >= 1
    ensures var s := Write(a, d, newKey);
      Enabled(c, e, s) && Apply(c, e, s) == Push(c, e, a, d, newKey) && SpecStep(spec, s) == spec[a := d]
  {
    hide Push;
  }

  /// A write that fills it.
  lemma {:induction false} WriteFull(c: Config, e: Engine, spec: map<nat, Data>, a: nat, x: Data, b: nat, d: Data, newKey: nat)
    requires c.Valid() && c.bps == 2 && Reachable(c, e, spec) && a != b && b < MAX_KEY
    requires |e.pool.bufs| == c.slots >= 2 && e.pool.pending == 0 && e.pool.bufs[0].blocks == map[a := x]
    ensures var bufs := [Buf(newKey, map[]), Buf(e.pool.bufs[0].key, map[a := x, b := d])] + e.pool.bufs[1..c.slots - 1];
      Reachable(c, e.(pool := Pool(bufs, 1)), spec[b := d])
  {
    hide *;
    PushFull(c, e, a, x, b, d, newKey);
    WriteIs(c, e, spec, b, d, newKey);
    Go(c, e, spec, Write(b, d, newKey));
  }

  /// The two blocks a < b of a queued buffer.
  function FlushTwo(c: Config, e0: Engine, a: nat, x: Data, b: nat, d: Data, seg: nat, key: nat): Engine
    requires c.Valid()
  {
    Issue(c, Issue(c, e0, a, 2 * seg, key, x), b, 2 * seg + 1, key, d)
  }

  lemma {:induction false} FlushIs(c: Config, e: Engine, a: nat, x: Data, b: nat, d: Data, seg: nat)
    requires c.Valid() && c.bps == 2 && a < b && |e.pool.bufs| >= 2 && e.pool.pending == 1
    requires e.pool.bufs[1].blocks == map[a := x, b := d]
    requires seg < c.nseg == |e.svt| == |e.used| && !e.svt[seg] && e.used[seg] == {}
    ensures var s, key := FlushOldest([a, b], Segment(seg)), e.pool.bufs[1].key;
      && Enabled(c, e, s)
      && Apply(c, e, s) == FlushTwo(c, AllocSegment(c, e, seg), a, x, b, d, seg, key).(pool := e.pool.(pending := 0))
  {
    var buf, order := e.pool.bufs[1], [a, b];
    Pair(a, x, b, d);
    UpTo(c, e, order, buf, seg);
    hide Issue, AllocSegment, FlushUpTo;
    var e0 := AllocSegment(c, e, seg);
    SamePool(c, e, a, x, b, d, seg, buf.key);
  }

  lemma {:induction false} UpTo(c: Config, e: Engine, order: seq<nat>, buf: Buf, seg: nat)
    requires c.Valid() && c.bps == 2 && |order| == 2 && order[0] in buf.blocks && order[1] in buf.blocks
    ensures FlushUpTo(c, e, order, buf, seg, 2) ==
      FlushTwo(c, AllocSegment(c, e, seg), order[0], buf.blocks[order[0]], order[1], buf.blocks[order[1]], seg, buf.key)
  {
    hide Issue, AllocSegment;
    assert FlushUpTo(c, e, order, buf, seg, 0) == AllocSegment(c, e, seg);
    assert PbaOf(c, seg, 0) == 2 * seg && PbaOf(c, seg, 1) == 2 * seg + 1;
    assert FlushUpTo(c, e, order, buf, seg, 1) == Issue(c, AllocSegment(c, e, seg), order[0], 2 * seg, buf.key, buf.blocks[order[0]]);
  }

  lemma {:induction false} SamePool(c: Config, e: Engine, a: nat, x: Data, b: nat, d: Data, seg: nat, key: nat)
    requires c.Valid()
    ensures FlushTwo(c, AllocSegment(c, e, seg), a, x, b, d, seg, key).pool == e.pool
  {
    PoolKept(c, AllocSegment(c, e, seg), a, 2 * seg, key, x);
    PoolKept(c, Issue(c, AllocSegment(c, e, seg), a, 2 * seg, key, x), b, 2 * seg + 1, key, d);
    hide Issue;
  }

  lemma {:induction false} PoolKept(c: Config, e: Engine, lba: nat, pba: nat, key: nat, d: Data)
    requires c.Valid()
    ensures Issue(c, e, lba, pba, key, d).pool == e.pool
  {
  }

  /// The flush of a buffer to a fresh segment.
  lemma {:induction false} FlushPair(c: Config, e: Engine, spec: map<nat, Data>, a: nat, x: Data, b: nat, d: Data, seg: nat)
    requires c.Valid() && c.bps == 2 && Reachable(c, e, spec) && a < b
    requires |e.pool.bufs| >= 2 && e.pool.pending == 1 && e.pool.bufs[1].blocks == map[a := x, b := d]
    requires seg < c.nseg == |e.svt| == |e.used| && !e.svt[seg] && e.used[seg] == {}
    ensures Reachable(c, FlushTwo(c, AllocSegment(c, e, seg), a, x, b, d, seg, e.pool.bufs[1].key).(pool := e.pool.(pending := 0)), spec)
  {
    hide *;
    FlushIs(c, e, a, x, b, d, seg);
    NoWrite(spec, FlushOldest([a, b], Segment(seg)));
    Go(c, e, spec, FlushOldest([a, b], Segment(seg)));
  }

  lemma {:induction false} NoWrite(spec: map<nat, Data>, s: Step)
    ensures !s.Write? ==> SpecStep(spec, s) == spec
  {
  }

  /// The pool after a buffer of two blocks was filled.
  function Rotated(p: Pool, newKey: nat, a: nat, x: Data, b: nat, d: Data, pending: nat): Pool
    requires |p.bufs| >= 2
  {
    Pool([Buf(newKey, map[]), Buf(p.bufs[0].key, map[a := x, b := d])] + p.bufs[1..|p.bufs| - 1], pending)
  }

  lemma {:induction false} RotatedIs(p: Pool, newKey: nat, a: nat, x: Data, b: nat, d: Data)
    requires |p.bufs| >= 2
    ensures var r := Rotated(p, newKey, a, x, b, d, 1);
      && |r.bufs| == |p.bufs| && r.pending == 1 && r.bufs[1] == Buf(p.bufs[0].key, map[a := x, b := d])
      && r.(pending := 0) == Rotated(p, newKey, a, x, b, d, 0)
  {
  }

  /// Two writes that fill the empty current buffer.
  lemma {:induction false} WritePair(c: Config, e: Engine, spec: map<nat, Data>, a: nat, x: Data, b: nat, d: Data, newKey: nat)
    requires c.Valid() && c.bps == 2 && Reachable(c, e, spec) && a != b && a < MAX_KEY && b < MAX_KEY
    requires |e.pool.bufs| == c.slots >= 2 && e.pool.pending == 0 && e.pool.bufs[0].blocks == map[]
    ensures Reachable(c, e.(pool := Rotated(e.pool, newKey, a, x, b, d, 1)), spec[a := x][b := d])
  {
    WriteHalf(c, e, spec, a, x, newKey);
    var e1 := e.(pool := e.pool.(bufs := [Buf(e.pool.bufs[0].key, map[a := x])] + e.pool.bufs[1..]));
    WriteFull(c, e1, spec[a := x], a, x, b, d, newKey);
    assert e1.pool.bufs[1..c.slots - 1] == e.pool.bufs[1..c.slots - 1];
    hide Reachable;
  }

  /// Two writes and the flush of their buffer to a fresh segment.
  lemma {:induction false} Round(c: Config, e: Engine, spec: map<nat, Data>, a: nat, x: Data, b: nat, d: Data, newKey: nat, seg: nat)
    requires c.Valid() && c.bps == 2 && Reachable(c, e, spec) && a < b < MAX_KEY
    requires |e.pool.bufs| == c.slots >= 2 && e.pool.pending == 0 && e.pool.bufs[0].blocks == map[]
    requires seg < c.nseg == |e.svt| == |e.used| && !e.svt[seg] && e.used[seg] == {}
    ensures var e1 := e.(pool := Rotated(e.pool, newKey, a, x, b, d, 1));
      Reachable(c, FlushTwo(c, AllocSegment(c, e1, seg), a, x, b, d, seg, e.pool.bufs[0].key).(pool := Rotated(e.pool, newKey, a, x, b, d, 0)),
                spec[a := x][b := d])
  {
    hide *;
    WritePair(c, e, spec, a, x, b, d, newKey);
    RotatedIs(e.pool, newKey, a, x, b, d);
    FlushPair(c, e.(pool := Rotated(e.pool, newKey, a, x, b, d, 1)), spec[a := x][b := d], a, x, b, d, seg);
  }

  /// Two blocks of threaded logging.
  function LogTwo(c: Config, e: Engine, a: nat, x: Data, p: nat, b: nat, d: Data, q: nat, key: nat): Engine
    requires c.Valid()
  {
    LogBlock(c, LogBlock(c, e, a, Some(p), key, x), b, Some(q), key, d)
  }

  /// find_logging_block may answer `p` and then `q`.
  ghost predicate MayLogTwo(c: Config, e: Engine, a: nat, x: Data, p: nat, q: nat, key: nat)
    requires c.Valid()
  {
    MayLog(c, e, p) && MayLog(c, LogBlock(c, e, a, Some(p), key, x), q)
  }

  lemma {:induction false} LogIs(c: Config, e: Engine, a: nat, x: Data, p: nat, b: nat, d: Data, q: nat)
    requires c.Valid() && a < b && |e.pool.bufs| >= 2 && e.pool.pending == 1
    requires e.pool.bufs[1].blocks == map[a := x, b := d]
    requires MayLogTwo(c, e, a, x, p, q, e.pool.bufs[1].key) && S.AllSet(e.svt)
    ensures var s, key := FlushOldest([a, b], Logging([Some(p), Some(q)])), e.pool.bufs[1].key;
      && Enabled(c, e, s)
      && Apply(c, e, s) == LogTwo(c, e, a, x, p, b, d, q, key).(pool := e.pool.(pending := 0))
  {
    var buf, order, ws := e.pool.bufs[1], [a, b], [Some(p), Some(q)];
    Pair(a, x, b, d);
    LogSteps(c, e, order, buf, ws);
    LogPoolKept(c, e, a, p, buf.key, x);
    LogPoolKept(c, LogBlock(c, e, a, Some(p), buf.key, x), b, q, buf.key, d);
    hide LogBlock, MayLog, LogUpTo;
    assert Answers(c, e, order, buf, ws);
  }

  lemma {:induction false} LogSteps(c: Config, e: Engine, order: seq<nat>, buf: Buf, ws: seq<Option<nat>>)
    requires c.Valid() && |order| == |ws| == 2 && order[0] in buf.blocks && order[1] in buf.blocks
    ensures LogUpTo(c, e, order, buf, ws, 0) == e
    ensures LogUpTo(c, e, order, buf, ws, 1) == LogBlock(c, e, order[0], ws[0], buf.key, buf.blocks[order[0]])
    ensures LogUpTo(c, e, order, buf, ws, 2) ==
      LogBlock(c, LogBlock(c, e, order[0], ws[0], buf.key, buf.blocks[order[0]]), order[1], ws[1], buf.key, buf.blocks[order[1]])
  {
    hide LogBlock;
    assert LogUpTo(c, e, order, buf, ws, 1) == LogBlock(c, e, order[0], ws[0], buf.key, buf.blocks[order[0]]);
  }

  lemma {:induction false} LogPoolKept(c: Config, e: Engine, lba: nat, pba: nat, key: nat, d: Data)
    requires c.Valid()
    ensures LogBlock(c, e, lba, Some(pba), key, d).pool == e.pool
  {
    PoolKept(c, TakeBlockState(c, e, pba), lba, pba, key, d);
    hide Issue;
  }

  /// Two writes and the flush of their buffer by threaded logging.
  lemma {:induction false} LogRound(c: Config, e: Engine, spec: map<nat, Data>, a: nat, x: Data, p: nat, b: nat, d: Data, q: nat, newKey: nat)
    requires c.Valid() && c.bps == 2 && Reachable(c, e, spec) && a < b < MAX_KEY
    requires |e.pool.bufs| == c.slots >= 2 && e.pool.pending == 0 && e.pool.bufs[0].blocks == map[]
    requires MayLogRound(c, e, a, x, p, b, d, q, newKey)
    ensures Reachable(c, LogEnd(c, e, a, x, p, b, d, q, newKey), spec[a := x][b := d])
  {
    hide *;
    var e1 := Full(e, newKey, a, x, b, d);
    WritePair(c, e, spec, a, x, b, d, newKey);
    RotatedIs(e.pool, newKey, a, x, b, d);
    LogEndIs(c, e, a, x, p, b, d, q, newKey);
    MayLogRoundIs(c, e, a, x, p, b, d, q, newKey);
    LogIs(c, e1, a, x, p, b, d, q);
    var s := FlushOldest([a, b], Logging([Some(p), Some(q)]));
    NoWrite(spec[a := x][b := d], s);
    Go(c, e1, spec[a := x][b := d], s);
  }

  /// The buffer is full and queued.
  function Full(e: Engine, newKey: nat, a: nat, x: Data, b: nat, d: Data): Engine
    requires |e.pool.bufs| >= 2
  {
    e.(pool := Rotated(e.pool, newKey, a, x, b, d, 1))
  }

  /// Every segment is in use, and the two blocks may be logged at these addresses.
  ghost predicate MayLogRound(c: Config, e: Engine, a: nat, x: Data, p: nat, b: nat, d: Data, q: nat, newKey: nat)
    requires c.Valid() && |e.pool.bufs| >= 2
  {
    MayLogTwo(c, Full(e, newKey, a, x, b, d), a, x, p, q, e.pool.bufs[0].key) && S.AllSet(e.svt)
  }

  lemma {:induction false} MayLogRoundIs(c: Config, e: Engine, a: nat, x: Data, p: nat, b: nat, d: Data, q: nat, newKey: nat)
    requires c.Valid() && |e.pool.bufs| >= 2
    ensures MayLogRound(c, e, a, x, p, b, d, q, newKey) <==>
      MayLogTwo(c, Full(e, newKey, a, x, b, d), a, x, p, q, e.pool.bufs[0].key) && S.AllSet(e.svt)
  {
    hide MayLogTwo, Full;
  }

  function LogEnd(c: Config, e: Engine, a: nat, x: Data, p: nat, b: nat, d: Data, q: nat, newKey: nat): Engine
    requires c.Valid() && |e.pool.bufs| >= 2
  {
    LogTwo(c, Full(e, newKey, a, x, b, d), a, x, p, b, d, q, e.pool.bufs[0].key).(pool := Rotated(e.pool, newKey, a, x, b, d, 0))
  }

  lemma {:induction false} LogEndIs(c: Config, e: Engine, a: nat, x: Data, p: nat, b: nat, d: Data, q: nat, newKey: nat)
    requires c.Valid() && |e.pool.bufs| >= 2
    ensures Full(e, newKey, a, x, b, d) == e.(pool := Rotated(e.pool, newKey, a, x, b, d, 1))
    ensures LogEnd(c, e, a, x, p, b, d, q, newKey) ==
      LogTwo(c, Full(e, newKey, a, x, b, d), a, x, p, b, d, q, e.pool.bufs[0].key).(pool := Rotated(e.pool, newKey, a, x, b, d, 0))
  {
  }

  lemma {:induction false} GoCollect(c: Config, e: Engine, spec: map<nat, Data>, seg: nat, bits: set<nat>, newKey: nat)
    requires c.Valid() && Reachable(c, e, spec) && |e.pool.bufs| >= 1 && Pops(e, seg, bits)
    ensures Reachable(c, Gc(c, e, seg, bits, newKey), spec)
  {
    Go(c, e, spec, Collect(seg, bits, newKey));
    hide Reachable, Gc, Pops;
  }

  lemma {:induction false} GoCompact(c: Config, e: Engine, spec: map<nat, Data>, l1': Table, att: seq<Entry>)
    requires c.Valid() && Reachable(c, e, spec) && e.ix.immPending && CompactionOk(e.ix, l1', att)
    ensures Reachable(c, ReleaseAll(c, e, att).(ix := Minor(e.ix, l1')), spec)
  {
    Go(c, e, spec, Compaction(l1', att));
    hide Reachable, CompactionOk, ReleaseAll, Minor;
  }

  // ---------------------------------------------------------------- one block

  function NewOn(e: Engine, k: nat, pba: nat, key: nat, d: Data, seen: bool): Engine
    requires pba < |e.rit|
  {
    e.(ix := e.ix.(mem := e.ix.mem[k := Value(pba, key)], size := e.ix.size + 1),
       rit := e.rit[pba := k], disk := e.disk[pba := Sealed(key, pba, d)], ok := e.ok && !seen)
  }

  /// A block whose number is new to the memtable.
  lemma {:induction false} IssueNew(c: Config, e: Engine, k: nat, pba: nat, key: nat, d: Data)
    requires c.Valid() && k !in e.ix.mem && e.ix.size + 1 < c.cap && pba < |e.rit|
    ensures Issue(c, e, k, pba, key, d) == NewOn(e, k, pba, key, d, !Unseen(e.ix, k, pba))
  {
    hide Unseen;
  }

  /// The same, and the memtable is full with it.
  lemma {:induction false} IssueLast(c: Config, e: Engine, k: nat, pba: nat, key: nat, d: Data)
    requires c.Valid() && k !in e.ix.mem && e.ix.size + 1 >= c.cap && pba < |e.rit| && !e.ix.immPending
    ensures Issue(c, e, k, pba, key, d) ==
      var e1 := NewOn(e, k, pba, key, d, !Unseen(e.ix, k, pba)); e1.(ix := Rotate(e1.ix))
  {
    hide Unseen;
  }

  function OverOn(e: Engine, k: nat, pba: nat, key: nat, d: Data, was: nat, used: seq<set<nat>>, tree: seq<Victim>): Engine
    requires pba < |e.rit| && was < |e.rit|
  {
    e.(ix := e.ix.(mem := e.ix.mem[k := Value(pba, key)]), rit := e.rit[was := INF_ADDR][pba := k],
       disk := e.disk[pba := Sealed(key, pba, d)], used := used, tree := tree)
  }

  /// A block that replaces a value in the memtable and releases its old address.
  lemma {:induction false} IssueOver(c: Config, e: Engine, k: nat, pba: nat, key: nat, d: Data, was: nat, wasKey: nat)
    requires c.Valid() && k in e.ix.mem && e.ix.mem[k] == Value(was, wasKey) && e.ix.size < c.cap && was != pba
    requires pba < |e.rit| && was < |e.rit| && e.rit[was] == k
    requires e.ix.imm.None? && !e.ix.immPending && e.ix.l0.None? && e.ix.l1 == map[]
    ensures Issue(c, e, k, pba, key, d) == OverOn(e, k, pba, key, d, was, ClearBit(c, e.used, was), ReturnTree(c, e, was))
  {
    assert Levels(e.ix) == [e.ix.mem, map[], map[], map[]];
    assert Unseen(e.ix, k, pba);
    hide Update, ClearBit, Unseen, Levels;
  }

  lemma {:induction false} Clean(l: Layers, k: nat, pba: nat)
    requires l.imm.None? && !l.immPending && l.l0.None? && l.l1 == map[] && k !in l.mem
    ensures Unseen(l, k, pba)
  {
    assert Levels(l) == [l.mem, map[], map[], map[]];
  }

  // ---------------------------------------------------------------- small sets

  const LOW: set<nat> := {0}
  const HIGH: set<nat> := {1}
  const BOTH: set<nat> := {0, 1}

  lemma {:induction false} Bits()
    ensures |LOW| == |HIGH| == 1 && |BOTH| == 2 && Below(2) == BOTH
    ensures BOTH - {0} == HIGH && BOTH - {1} == LOW && LOW - {0} == {} && HIGH - {1} == {}
    ensures LOW + {1} == BOTH && HIGH + {0} == BOTH && LOW != {} && HIGH != {} && BOTH != {}
  {
    assert Below(2) == BOTH;
  }

  /// The nodes that come and go in the runs below.
  lemma {:induction false} Trees()
    ensures Update([], 0, SegEntry(1, HIGH), 2) == [Victim(0, 1, HIGH)]
    ensures Update([Victim(0, 1, HIGH)], 0, SegEntry(0, {}), 2) == [Victim(0, 0, {})]
    ensures Update([], 1, SegEntry(1, HIGH), 2) == [Victim(1, 1, HIGH)]
    ensures Update([Victim(1, 1, HIGH)], 1, SegEntry(0, {}), 2) == [Victim(1, 0, {})]
    ensures Update([Victim(0, 0, {})], 1, SegEntry(1, HIGH), 2) == [Victim(0, 0, {}), Victim(1, 1, HIGH)]
    ensures Update([Victim(0, 0, {}), Victim(1, 1, HIGH)], 1, SegEntry(0, {}), 2) == [Victim(0, 0, {}), Victim(1, 0, {})]
    ensures Update([Victim(1, 0, {})], 0, SegEntry(1, LOW), 2) == [Victim(1, 0, {}), Victim(0, 1, LOW)]
    ensures Update([Victim(1, 1, HIGH)], 0, SegEntry(1, LOW), 2) == [Victim(1, 1, HIGH), Victim(0, 1, LOW)]
  {
    assert Remove([Victim(0, 0, {}), Victim(1, 1, HIGH)], 1) == [Victim(0, 0, {})];
  }

  /// What every write of the runs writes.
  const D: Data := [0]

  function Value(pba: nat, key: nat): Cell {
    Cell(Some(Record(pba, key)), false)
  }

  const X: nat := INF_ADDR

  /// The effect of a release on bitmaps and tree.
  lemma {:induction false} BitCleared(c: Config, e: Engine, pba: nat, seg: nat, was: set<nat>, bits: set<nat>,
                                   used': seq<set<nat>>, tree': seq<Victim>)
    requires c.Valid() && c.bps == 2 && seg == pba / 2 && seg < |e.used| && e.used[seg] == was && was != {}
    requires bits == was - {pba % 2} && used' == e.used[seg := bits]
    requires tree' == Update(e.tree, seg, SegEntry(|bits|, bits), 2)
    ensures ClearBit(c, e.used, pba) == used' && ReturnTree(c, e, pba) == tree'
  {
    hide Update;
  }

  /// A block that replaces a value: everything spelled out.
  lemma {:induction false} Rewritten(c: Config, e: Engine, k: nat, pba: nat, key: nat, d: Data, was: nat, wasKey: nat,
                                     seg: nat, old': set<nat>, bits: set<nat>, used': seq<set<nat>>, tree': seq<Victim>)
    requires c.Valid() && c.bps == 2 && c.cap == 100 && e.ix.size < 100
    requires k in e.ix.mem && e.ix.mem[k] == Value(was, wasKey) && was != pba && pba < |e.rit| && was < |e.rit| && e.rit[was] == k
    requires e.ix.imm.None? && !e.ix.immPending && e.ix.l0.None? && e.ix.l1 == map[]
    requires seg == was / 2 && seg < |e.used| && e.used[seg] == old' && old' != {} && bits == old' - {was % 2}
    requires used' == e.used[seg := bits] && tree' == Update(e.tree, seg, SegEntry(|bits|, bits), 2)
    ensures Issue(c, e, k, pba, key, d) == OverOn(e, k, pba, key, d, was, used', tree')
  {
    IssueOver(c, e, k, pba, key, d, was, wasKey);
    BitCleared(c, e, was, seg, old', bits, used', tree');
    hide Issue, Update, ClearBit, ReturnTree;
  }
}
