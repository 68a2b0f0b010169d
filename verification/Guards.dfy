/** Why the guards are needed: for each one a run of the handlers, from a formatted device, that loses
data without it. */
module Guards {
  import opened Common
  import opened Index
  import opened Engine
  import opened Victims
  import opened EngineTree
  import opened EngineRuns
  import opened RunSteps
  import S = Segments

  // ---------------------------------------------------------------- a stale victim

  /// Two segments of two blocks, two buffers, a memtable that does not fill.
  const TWO: Config := Config(2, 2, 2, 100)

  /// The same with a third buffer.
  const THREE: Config := Config(2, 2, 3, 100)

  /// Three segments, and a memtable that is full with two blocks.
  const SMALL: Config := Config(2, 3, 2, 2)

  lemma {:induction false} Valids()
    ensures TWO.Valid() && THREE.Valid() && SMALL.Valid()
    ensures TWO.bps == TWO.nseg == TWO.slots == 2 && TWO.cap == 100
    ensures THREE.bps == THREE.nseg == 2 && THREE.slots == 3 && THREE.cap == 100
    ensures SMALL.bps == SMALL.slots == SMALL.cap == 2 && SMALL.nseg == 3
  {
  }

  /// Blocks 1 and 2 live in segment `h`; the other segment is empty.
  function Live12(p: Pool, h: nat, key: nat, rest: nat, tree: seq<Victim>, logging: Option<nat>, svt: seq<bool>,
                  disk: map<nat, Sealed>): Engine
    requires h < 2
  {
    Engine(p, Layers(map[1 := Value(2 * h, key), 2 := Value(2 * h + 1, key)], 2, None, false, None, map[]),
           if h == 0 then [1, 2, rest, rest] else [rest, rest, 1, 2], if h == 0 then [BOTH, {}] else [{}, BOTH],
           tree, logging, svt, disk, true)
  }

  function Written(disk: map<nat, Sealed>, h: nat, key: nat, x: Data, d: Data): map<nat, Sealed> {
    disk[2 * h := Sealed(key, 2 * h, x)][2 * h + 1 := Sealed(key, 2 * h + 1, d)]
  }

  lemma {:induction false} First(c: Config, p: Pool, x: Data, d: Data, key: nat)
    requires c.Valid() && c.bps == 2 && c.nseg == 2 && c.cap == 100
    ensures var e := Engine(p, Layers(map[], 0, None, false, None, map[]), [0, 0, 0, 0], [{}, {}], [], None, [false, false], map[], true);
      FlushTwo(c, AllocSegment(c, e, 0), 1, x, 2, d, 0, key) ==
        Live12(p, 0, key, 0, [], None, [true, false], Written(map[], 0, key, x, d))
  {
    Bits();
    var e := Engine(p, Layers(map[], 0, None, false, None, map[]), [0, 0, 0, 0], [{}, {}], [], None, [false, false], map[], true);
    var e0 := AllocSegment(c, e, 0);
    Clean(e0.ix, 1, 0);
    IssueNew(c, e0, 1, 0, key, x);
    var e1 := NewOn(e0, 1, 0, key, x, false);
    Clean(e1.ix, 2, 1);
    IssueNew(c, e1, 2, 1, key, d);
    hide Issue, Below, Unseen;
  }

  /// Both blocks are rewritten to the other, fresh segment: their old one is left with an empty node.
  lemma {:induction false} Moved(p: Pool, rest: nat, logging: Option<nat>, disk: map<nat, Sealed>, was: nat, x: Data, d: Data, key: nat)
    ensures var e := Live12(p, 0, was, rest, [], logging, [true, false], disk);
      FlushTwo(TWO, AllocSegment(TWO, e, 1), 1, x, 2, d, 1, key) ==
        Live12(p, 1, key, X, [Victim(0, 0, {})], logging, [true, true], Written(disk, 1, key, x, d))
  {
    Bits();
    Trees();
    var e := Live12(p, 0, was, rest, [], logging, [true, false], disk);
    var e0 := AllocSegment(TWO, e, 1);
    assert e0 == e.(used := [BOTH, BOTH], svt := [true, true]);
    FirstMoved(TWO, e0, was, key, x, rest);
    var e1 := OverOn(e0, 1, 2, key, x, 0, [HIGH, BOTH], [Victim(0, 1, HIGH)]);
    Rewritten(TWO, e1, 2, 3, key, d, 1, was, 0, HIGH, {}, [{}, BOTH], [Victim(0, 0, {})]);
    hide Issue, Below, Update;
    var e2 := OverOn(e1, 2, 3, key, d, 1, [{}, BOTH], [Victim(0, 0, {})]);
    assert e2.rit == [X, X, 1, 2];
  }

  lemma {:induction false} FirstMoved(c: Config, e: Engine, was: nat, key: nat, x: Data, rest: nat)
    requires c.Valid() && c.bps == 2 && c.cap == 100
    requires e.ix == Layers(map[1 := Value(0, was), 2 := Value(1, was)], 2, None, false, None, map[])
    requires e.rit == [1, 2, rest, rest] && e.used == [BOTH, BOTH] && e.tree == []
    ensures var e1 := OverOn(e, 1, 2, key, x, 0, [HIGH, BOTH], [Victim(0, 1, HIGH)]);
      && Issue(c, e, 1, 2, key, x) == e1
      && e1.ix.mem == map[1 := Value(2, key), 2 := Value(1, was)] && e1.rit == [X, 2, 1, rest]
  {
    Bits();
    Trees();
    Rewritten(c, e, 1, 2, key, x, 0, was, 0, BOTH, HIGH, [HIGH, BOTH], [Victim(0, 1, HIGH)]);
    hide Issue, Below, Update;
  }

  /// The same by threaded logging, back to segment 0: `t0` is the tree once that is the logging segment.
  lemma {:induction false} Logged(p: Pool, logging: Option<nat>, tree: seq<Victim>, t0: seq<Victim>, t1: seq<Victim>, t2: seq<Victim>,
                                  disk: map<nat, Sealed>, was: nat, x: Data, d: Data, key: nat)
    requires if logging == None then tree == [Victim(0, 0, {})] && t0 == [] else logging == Some(0) && t0 == tree
    requires Update(t0, 1, SegEntry(1, HIGH), 2) == t1 && Update(t1, 1, SegEntry(0, {}), 2) == t2
    ensures var e := Live12(p, 1, was, X, tree, logging, [true, true], disk);
      && MayLogTwo(TWO, e, 1, x, 0, 1, key)
      && LogTwo(TWO, e, 1, x, 0, 2, d, 1, key) ==
           Live12(p, 0, key, X, t2, Some(0), [true, true], Written(disk, 0, key, x, d))
  {
    hide *;
    FirstLogged(p, logging, tree, t0, t1, disk, was, x, key);
    SecondLogged(p, t1, t2, disk, was, x, d, key);
    Valids();
    LogTwoIs(TWO, Live12(p, 1, was, X, tree, logging, [true, true], disk), 1, x, 0, 2, d, 1, key);
    MayLogTwoIs(TWO, Live12(p, 1, was, X, tree, logging, [true, true], disk), 1, x, 0, 1, key);
  }

  lemma {:induction false} MayLogTwoIs(c: Config, e: Engine, a: nat, x: Data, p: nat, q: nat, key: nat)
    requires c.Valid()
    ensures MayLogTwo(c, e, a, x, p, q, key) <==> MayLog(c, e, p) && MayLog(c, LogBlock(c, e, a, Some(p), key, x), q)
  {
  }

  lemma {:induction false} LogTwoIs(c: Config, e: Engine, a: nat, x: Data, p: nat, b: nat, d: Data, q: nat, key: nat)
    requires c.Valid()
    ensures LogTwo(c, e, a, x, p, b, d, q, key) == LogBlock(c, LogBlock(c, e, a, Some(p), key, x), b, Some(q), key, d)
  {
  }

  /// Half way: block 1 is in segment 0 already.
  function Half(p: Pool, t1: seq<Victim>, disk: map<nat, Sealed>, was: nat, x: Data, key: nat): Engine {
    Engine(p, Layers(map[1 := Value(0, key), 2 := Value(3, was)], 2, None, false, None, map[]), [1, X, X, 2], [LOW, HIGH], t1,
           Some(0), [true, true], disk[0 := Sealed(key, 0, x)], true)
  }

  lemma {:induction false} FirstLogged(p: Pool, logging: Option<nat>, tree: seq<Victim>, t0: seq<Victim>, t1: seq<Victim>,
                                       disk: map<nat, Sealed>, was: nat, x: Data, key: nat)
    requires if logging == None then tree == [Victim(0, 0, {})] && t0 == [] else logging == Some(0) && t0 == tree
    requires Update(t0, 1, SegEntry(1, HIGH), 2) == t1
    ensures var e := Live12(p, 1, was, X, tree, logging, [true, true], disk);
      MayLog(TWO, e, 0) && LogBlock(TWO, e, 1, Some(0), key, x) == Half(p, t1, disk, was, x, key)
  {
    Bits();
    var e := Live12(p, 1, was, X, tree, logging, [true, true], disk);
    var e0 := TakeBlockState(TWO, e, 0);
    assert e0 == e.(used := [LOW, BOTH], tree := t0, logging := Some(0));
    Rewritten(TWO, e0, 1, 0, key, x, 2, was, 1, BOTH, HIGH, [LOW, HIGH], t1);
    hide Issue, Below, Update;
    var e1 := OverOn(e0, 1, 0, key, x, 2, [LOW, HIGH], t1);
    assert e1.rit == [1, X, X, 2] && e1.ix.mem == map[1 := Value(0, key), 2 := Value(3, was)];
  }

  lemma {:induction false} SecondLogged(p: Pool, t1: seq<Victim>, t2: seq<Victim>, disk: map<nat, Sealed>, was: nat, x: Data, d: Data, key: nat)
    requires Update(t1, 1, SegEntry(0, {}), 2) == t2
    ensures var e := Half(p, t1, disk, was, x, key);
      && MayLog(TWO, e, 1)
      && LogBlock(TWO, e, 2, Some(1), key, d) == Live12(p, 0, key, X, t2, Some(0), [true, true], Written(disk, 0, key, x, d))
  {
    Bits();
    var e := Half(p, t1, disk, was, x, key);
    var e0 := TakeBlockState(TWO, e, 1);
    assert e0 == e.(used := [BOTH, HIGH]);
    Rewritten(TWO, e0, 2, 1, key, d, 3, was, 1, HIGH, {}, [BOTH, {}], t2);
    hide Issue, Below, Update;
    var e1 := OverOn(e0, 2, 1, key, d, 3, [BOTH, {}], t2);
    assert e1.rit == [1, 2, X, X] && e1.ix.mem == map[1 := Value(0, key), 2 := Value(1, key)];
  }

  // ---------------------------------------------------------------- the run

  /// The current buffer is empty and nothing waits to be flushed.
  predicate Quiet(p: Pool, slots: nat) {
    |p.bufs| == slots && slots >= 2 && p.pending == 0 && p.bufs[0].blocks == map[]
  }

  lemma {:induction false} StillQuiet(p: Pool, slots: nat, newKey: nat, a: nat, x: Data, b: nat, d: Data)
    requires Quiet(p, slots)
    ensures |p.bufs| == slots >= 2
    ensures var r := Rotated(p, newKey, a, x, b, d, 0); Quiet(r, slots) && |r.bufs| == slots && r.bufs[0].key == newKey
  {
  }

  /// Writing 1 and 2 again moves them from segment 0 to the fresh segment 1.
  lemma {:induction false} MoveRound(p: Pool, rest: nat, logging: Option<nat>, disk: map<nat, Sealed>, was: nat, x: Data, d: Data,
                                     newKey: nat, spec: map<nat, Data>)
    requires Quiet(p, 2) && Reachable(TWO, Live12(p, 0, was, rest, [], logging, [true, false], disk), spec)
    ensures var key := p.bufs[0].key;
      Reachable(TWO, Live12(Rotated(p, newKey, 1, x, 2, d, 0), 1, key, X, [Victim(0, 0, {})], logging, [true, true],
                            Written(disk, 1, key, x, d)), spec[1 := x][2 := d])
  {
    var e, key := Live12(p, 0, was, rest, [], logging, [true, false], disk), p.bufs[0].key;
    Round(TWO, e, spec, 1, x, 2, d, newKey, 1);
    Moved(Rotated(p, newKey, 1, x, 2, d, 1), rest, logging, disk, was, x, d, key);
    hide Reachable, FlushTwo, AllocSegment, Rotated;
  }

  /// Writing them once more moves them back by threaded logging.
  lemma {:induction false} LogBackRound(p: Pool, logging: Option<nat>, tree: seq<Victim>, t0: seq<Victim>, t1: seq<Victim>, t2: seq<Victim>,
                                        disk: map<nat, Sealed>, was: nat, x: Data, d: Data, newKey: nat, spec: map<nat, Data>)
    requires Quiet(p, 2) && Reachable(TWO, Live12(p, 1, was, X, tree, logging, [true, true], disk), spec)
    requires if logging == None then tree == [Victim(0, 0, {})] && t0 == [] else logging == Some(0) && t0 == tree
    requires Update(t0, 1, SegEntry(1, HIGH), 2) == t1 && Update(t1, 1, SegEntry(0, {}), 2) == t2
    ensures var key := p.bufs[0].key;
      Reachable(TWO, Live12(Rotated(p, newKey, 1, x, 2, d, 0), 0, key, X, t2, Some(0), [true, true], Written(disk, 0, key, x, d)),
                spec[1 := x][2 := d])
  {
    hide *;
    Valids();
    QuietParts(p, 2);
    var e, key := Live12(p, 1, was, X, tree, logging, [true, true], disk), p.bufs[0].key;
    Live12Is(p, 1, was, X, tree, logging, [true, true], disk);
    Live12Is(Rotated(p, newKey, 1, x, 2, d, 1), 0, key, X, t2, Some(0), [true, true], Written(disk, 0, key, x, d));
    Logged(Rotated(p, newKey, 1, x, 2, d, 1), logging, tree, t0, t1, t2, disk, was, x, d, key);
    LogEndIs(TWO, e, 1, x, 0, 2, d, 1, newKey);
    BothSet();
    SmallKeys();
    MayLogRoundIs(TWO, e, 1, x, 0, 2, d, 1, newKey);
    LogRound(TWO, e, spec, 1, x, 0, 2, d, 1, newKey);
  }

  lemma {:induction false} Live12Is(p: Pool, h: nat, key: nat, rest: nat, tree: seq<Victim>, logging: Option<nat>, svt: seq<bool>,
                                    disk: map<nat, Sealed>)
    requires h < 2
    ensures var e := Live12(p, h, key, rest, tree, logging, svt, disk);
      e.pool == p && e.svt == svt && forall q :: e.(pool := q) == Live12(q, h, key, rest, tree, logging, svt, disk)
  {
  }

  lemma {:induction false} BothSet()
    ensures S.AllSet([true, true]) && S.AllSet([true, true, true])
  {
  }

  lemma {:induction false} SmallKeys()
    ensures 1 < 2 < MAX_KEY && 3 < 4 < MAX_KEY
  {
  }

  lemma {:induction false} QuietParts(p: Pool, slots: nat)
    requires Quiet(p, slots)
    ensures |p.bufs| == slots >= 2 && p.bufs[0].blocks == map[] && p.pending == 0
  {
  }

  /// Collecting a node without bits only hands the segment back.
  lemma {:induction false} EmptyUpTo(c: Config, e: Engine, seg: nat, newKey: nat, o: nat)
    requires c.Valid() && |e.pool.bufs| >= 1
    ensures GcUpTo(c, e, seg, {}, newKey, o) == e
  {
    hide GcBlock;
    if o > 0 { EmptyUpTo(c, e, seg, newKey, o - 1); }
  }

  lemma {:induction false} EmptyRound(c: Config, e: Engine, spec: map<nat, Data>, seg: nat, newKey: nat)
    requires c.Valid() && Reachable(c, e, spec) && |e.pool.bufs| >= 1 && Pops(e, seg, {})
    ensures Reachable(c, ReturnSegment(AfterPop(e).(ok := e.ok && e.logging != Some(seg)), seg), spec)
  {
    GoCollect(c, e, spec, seg, {}, newKey);
    EmptyUpTo(c, AfterPop(e).(ok := e.ok && e.logging != Some(seg)), seg, newKey, c.bps);
    hide Reachable, Pops, AfterPop, ReturnSegment;
  }

  /// The state after the stale node of segment 0 was collected.
  function Stale(p: Pool, key: nat, disk: map<nat, Sealed>): Engine {
    Engine(p, Layers(map[1 := Value(0, key), 2 := Value(1, key)], 2, None, false, None, map[]), [1, 2, X, X], [{}, {}],
           [Victim(1, 0, {})], Some(0), [false, true], disk, false)
  }

  /// The next buffer overwrites block 1, which lives in the segment that was handed back.
  lemma {:induction false} OverwritesOne(p: Pool, was: nat, disk: map<nat, Sealed>, x: Data, d: Data, key: nat)
    requires key != was && Query(p.bufs, 1).None?
    ensures var e := FlushTwo(TWO, AllocSegment(TWO, Stale(p, was, disk), 0), 2, x, 3, d, 0, key);
      forall q: Pool :: q.bufs == p.bufs ==> Read(e.(pool := q), 1).None?
  {
    Bits();
    Trees();
    var e := Stale(p, was, disk);
    var e0 := AllocSegment(TWO, e, 0);
    assert e0 == e.(used := [BOTH, {}], svt := [true, true]);
    Rewritten(TWO, e0, 2, 0, key, x, 1, was, 0, BOTH, LOW, [LOW, {}], [Victim(1, 0, {}), Victim(0, 1, LOW)]);
    var e1 := OverOn(e0, 2, 0, key, x, 1, [LOW, {}], [Victim(1, 0, {}), Victim(0, 1, LOW)]);
    Clean(e1.ix, 3, 1);
    IssueNew(TWO, e1, 3, 1, key, d);
    hide Issue, Below, Update, Unseen;
  }

  /// Some run writes `k` and then does not read back what it wrote last.
  ghost predicate Loses(c: Config, k: nat)
    requires c.Valid()
  {
    exists e, spec :: Reachable(c, e, spec) && k in spec && Read(e, k) != Some(spec[k])
  }

  lemma {:induction false} LosesIs(c: Config, e: Engine, spec: map<nat, Data>, k: nat)
    requires c.Valid() && Reachable(c, e, spec) && k in spec && Read(e, k).None?
    ensures Loses(c, k)
  {
    hide Reachable, Read;
  }

  function PairBuf(key: nat, a: nat, x: Data, b: nat, d: Data): Buf {
    Buf(key, map[a := x, b := d])
  }

  lemma {:induction false} NotThere(bufs: seq<Buf>, k: nat)
    requires forall b :: b in bufs ==> k !in b.blocks
    ensures Query(bufs, k).None?
  {
    if bufs != [] {
      assert bufs[0] in bufs;
      NotThere(bufs[1..], k);
    }
  }

  /// The first round of every run below.
  lemma {:induction false} FirstRound(c: Config, x: Data, d: Data)
    requires c.Valid() && c.bps == 2 && c.nseg == 2 && c.cap == 100
    ensures var p := Init(c, 7).pool;
      && Quiet(p, c.slots) && |p.bufs| == c.slots >= 2 && p.bufs[0].key == 7
      && Reachable(c, Live12(Rotated(p, 8, 1, x, 2, d, 0), 0, 7, 0, [], None, [true, false], Written(map[], 0, 7, x, d)), map[1 := x, 2 := d])
  {
    var e := Init(c, 7);
    assert e.rit == [0, 0, 0, 0] && e.used == [{}, {}] && e.svt == [false, false];
    Begin(c);
    Round(c, e, map[], 1, x, 2, d, 8, 0);
    First(c, Rotated(e.pool, 8, 1, x, 2, d, 1), x, d, 7);
    hide Reachable, FlushTwo, AllocSegment, Rotated;
  }

  lemma {:induction false} EmptyNode(e: Engine, seg: nat, rest: seq<Victim>)
    requires e.tree == [Victim(seg, 0, {})] + rest && seg < |e.used| && seg < |e.svt|
    ensures Pops(e, seg, {})
    ensures ReturnSegment(AfterPop(e).(ok := e.ok && e.logging != Some(seg)), seg) ==
      e.(used := e.used[seg := {}], tree := Remove(rest, seg), svt := e.svt[seg := false], ok := e.ok && e.logging != Some(seg))
  {
    assert Poppable(e.tree, e.logging) == e.tree && e.tree[1..] == rest;
  }

  lemma {:induction false} CollectOne(p: Pool, key: nat, disk: map<nat, Sealed>, spec: map<nat, Data>)
    requires |p.bufs| >= 1 && Reachable(TWO, Live12(p, 0, key, X, [Victim(1, 0, {})], Some(0), [true, true], disk), spec)
    ensures Reachable(TWO, Live12(p, 0, key, X, [], Some(0), [true, false], disk), spec)
  {
    var e := Live12(p, 0, key, X, [Victim(1, 0, {})], Some(0), [true, true], disk);
    EmptyNode(e, 1, []);
    EmptyRound(TWO, e, spec, 1, 0);
    hide Reachable, Pops, ReturnSegment, AfterPop;
    assert [BOTH, {}][1 := {}] == [BOTH, {}] && [true, true][1 := false] == [true, false];
  }

  /// The collection of a stale node: segment 0 is in use and still the logging segment.
  lemma {:induction false} CollectStale(p: Pool, key: nat, disk: map<nat, Sealed>, spec: map<nat, Data>)
    requires |p.bufs| >= 1
    requires Reachable(TWO, Live12(p, 0, key, X, [Victim(0, 0, {}), Victim(1, 0, {})], Some(0), [true, true], disk), spec)
    ensures Reachable(TWO, Stale(p, key, disk), spec)
  {
    var e := Live12(p, 0, key, X, [Victim(0, 0, {}), Victim(1, 0, {})], Some(0), [true, true], disk);
    EmptyNode(e, 0, [Victim(1, 0, {})]);
    EmptyRound(TWO, e, spec, 0, 0);
    hide Reachable, Pops, ReturnSegment, AfterPop;
    assert [BOTH, {}][0 := {}] == [{}, {}] && [true, true][0 := false] == [false, true];
    assert Remove([Victim(1, 0, {})], 0) == [Victim(1, 0, {})];
  }

  lemma {:induction false} ReuseRound(p: Pool, was: nat, disk: map<nat, Sealed>, spec: map<nat, Data>, newKey: nat)
    requires Quiet(p, 2) && p.bufs[0].key != was && Reachable(TWO, Stale(p, was, disk), spec) && 1 in spec
    ensures Loses(TWO, 1)
  {
    var e, key, q := Stale(p, was, disk), p.bufs[0].key, Rotated(p, newKey, 2, D, 3, D, 1);
    Round(TWO, e, spec, 2, D, 3, D, newKey, 0);
    assert q.bufs == [Buf(newKey, map[]), PairBuf(key, 2, D, 3, D)];
    NotThere(q.bufs, 1);
    OverwritesOne(q, was, disk, D, D, key);
    hide Reachable, FlushTwo, AllocSegment, Query, Read;
    var e1 := FlushTwo(TWO, AllocSegment(TWO, Stale(q, was, disk), 0), 2, D, 3, D, 0, key).(pool := Rotated(p, newKey, 2, D, 3, D, 0));
    assert Reachable(TWO, e1, spec[2 := D][3 := D]);
    assert Read(e1, 1).None?;
  }

  /// A zero-count node of the logging segment is popped without the test that protects that segment.
  /// Blocks 1 and 2 are moved to segment 1, back to segment 0 by threaded logging, and so once more; the
  /// node that segment 0 got when it was empty is then stale.  Its collection hands segment 0 back with
  /// both blocks in it, and the next buffer overwrites block 1.
  lemma {:induction false} StaleVictimLosesData()
    ensures Loses(TWO, 1)
  {
    hide *;
    Valids();
    Trees();
    var none, low, other, both := Victim(0, 0, {}), Victim(1, 1, HIGH), Victim(1, 0, {}), [Victim(0, 0, {}), Victim(1, 0, {})];
    var p0 := Init(TWO, 7).pool;
    FirstRound(TWO, D, D);
    var p1, d1, s1 := Rotated(p0, 8, 1, D, 2, D, 0), Written(map[], 0, 7, D, D), map[1 := D, 2 := D];
    StillQuiet(p0, 2, 8, 1, D, 2, D);
    MoveRound(p1, 0, None, d1, 7, D, D, 9, s1);
    var p2, d2, s2 := Rotated(p1, 9, 1, D, 2, D, 0), Written(d1, 1, 8, D, D), s1[1 := D][2 := D];
    StillQuiet(p1, 2, 9, 1, D, 2, D);
    LogBackRound(p2, None, [none], [], [low], [other], d2, 8, D, D, 10, s2);
    var p3, d3, s3 := Rotated(p2, 10, 1, D, 2, D, 0), Written(d2, 0, 9, D, D), s2[1 := D][2 := D];
    StillQuiet(p2, 2, 10, 1, D, 2, D);
    CollectOne(p3, 9, d3, s3);
    MoveRound(p3, X, Some(0), d3, 9, D, D, 11, s3);
    var p4, d4, s4 := Rotated(p3, 11, 1, D, 2, D, 0), Written(d3, 1, 10, D, D), s3[1 := D][2 := D];
    StillQuiet(p3, 2, 11, 1, D, 2, D);
    LogBackRound(p4, Some(0), [none], [none], [none, low], both, d4, 10, D, D, 12, s4);
    var p5, d5, s5 := Rotated(p4, 12, 1, D, 2, D, 0), Written(d4, 0, 11, D, D), s4[1 := D][2 := D];
    StillQuiet(p4, 2, 12, 1, D, 2, D);
    CollectStale(p5, 11, d5, s5);
    ReuseRound(p5, 11, d5, s5, 13);
  }

  // ---------------------------------------------------------------- a flushed copy

  /// Blocks 1 and 3 were flushed to segment 1: segment 0 keeps block 2.
  function Split(p: Pool, disk: map<nat, Sealed>, was: nat, key: nat): Engine {
    Engine(p, Layers(map[1 := Value(2, key), 2 := Value(1, was), 3 := Value(3, key)], 3, None, false, None, map[]), [X, 2, 1, 3],
           [HIGH, BOTH], [Victim(0, 1, HIGH)], None, [true, true], disk, true)
  }

  lemma {:induction false} Splits(p: Pool, disk: map<nat, Sealed>, was: nat, key: nat)
    ensures var e := Live12(p, 0, was, 0, [], None, [true, false], disk);
      FlushTwo(THREE, AllocSegment(THREE, e, 1), 1, D, 3, D, 1, key) == Split(p, Written(disk, 1, key, D, D), was, key)
  {
    Bits();
    var e := Live12(p, 0, was, 0, [], None, [true, false], disk);
    var e0 := AllocSegment(THREE, e, 1);
    assert e0 == e.(used := [BOTH, BOTH], svt := [true, true]);
    FirstMoved(THREE, e0, was, key, D, 0);
    var e1 := OverOn(e0, 1, 2, key, D, 0, [HIGH, BOTH], [Victim(0, 1, HIGH)]);
    Clean(e1.ix, 3, 3);
    IssueNew(THREE, e1, 3, 3, key, D);
    hide Issue, Below, Unseen;
    var e2 := NewOn(e1, 3, 3, key, D, false);
    assert e2.rit == [X, 2, 1, 3] && e2.ix.mem == map[1 := Value(2, key), 2 := Value(1, was), 3 := Value(3, key)];
  }

  /// Block 2 was collected, and dropped because an old buffer has a copy.
  function Dropped(p: Pool, disk: map<nat, Sealed>, key: nat): Engine {
    Engine(p, Layers(map[1 := Value(2, key), 2 := Cell(None, true), 3 := Value(3, key)], 3, None, false, None, map[]), [X, X, 1, 3],
           [{}, BOTH], [], None, [false, true], disk, false)
  }

  lemma {:induction false} DropsBlock(p: Pool, disk: map<nat, Sealed>, was: nat, key: nat, newKey: nat)
    requires |p.bufs| >= 1 && 1 in disk && disk[1] == Sealed(was, 1, D) && Query(p.bufs, 2).Some? && !Unflushed(p, 2)
    ensures var e := Split(p, disk, was, key).(tree := []);
      GcBlock(THREE, e, 1, newKey) == e.(ix := Dropped(p, disk, key).ix, rit := [X, X, 1, 3], ok := false)
  {
    var e := Split(p, disk, was, key).(tree := []);
    var e1 := e.(rit := e.rit[1 := INF_ADDR]);
    assert e1.rit == [X, X, 1, 3];
    assert Lookup(e.ix, 2) == Some(Record(1, was));
    var e2 := PutRecord(THREE, e1, 2, None);
    assert e2 == e1.(ix := Dropped(p, disk, key).ix) by { hide Query, Unflushed; }
  }

  lemma {:induction false} OneBit(c: Config, e: Engine, newKey: nat)
    requires c.Valid() && c.bps == 2 && |e.pool.bufs| >= 1
    ensures GcUpTo(c, e, 0, HIGH, newKey, 2) == GcBlock(c, e, 1, newKey)
  {
    assert GcUpTo(c, e, 0, HIGH, newKey, 0) == e;
    assert GcUpTo(c, e, 0, HIGH, newKey, 1) == e;
    assert PbaOf(c, 0, 1) == 1;
    hide GcBlock;
  }

  lemma {:induction false} CollectSplit(p: Pool, disk: map<nat, Sealed>, was: nat, key: nat, spec: map<nat, Data>)
    requires |p.bufs| >= 1 && 1 in disk && disk[1] == Sealed(was, 1, D) && Query(p.bufs, 2).Some? && !Unflushed(p, 2)
    requires Reachable(THREE, Split(p, disk, was, key), spec)
    ensures Reachable(THREE, Dropped(p, disk, key), spec)
  {
    var e := Split(p, disk, was, key);
    assert e.tree[0] == Victim(0, 1, HIGH) && e.tree[1..] == [];
    assert Poppable(e.tree, e.logging) == e.tree;
    GoCollect(THREE, e, spec, 0, HIGH, 0);
    OneBit(THREE, e.(tree := []), 0);
    DropsBlock(p, disk, was, key, 0);
    hide Reachable, Unflushed, Query, GcUpTo, GcBlock;
    assert AfterPop(e).(ok := e.ok && e.logging != Some(0)) == e.(tree := []);
    assert [HIGH, BOTH][0 := {}] == [{}, BOTH] && [true, true][0 := false] == [false, true];
  }

  /// The pool of that run: block 2 only in the oldest buffer, which was flushed long ago.
  function Mixed(key: nat): Pool {
    Pool([Buf(key, map[1 := D]), PairBuf(8, 1, D, 3, D), PairBuf(7, 1, D, 2, D)], 0)
  }

  lemma {:induction false} MixedHas2(key: nat)
    ensures Query(Mixed(key).bufs, 2).Some? && !Unflushed(Mixed(key), 2)
  {
    var bufs := Mixed(key).bufs;
    assert bufs[1..] == [bufs[1], bufs[2]] && bufs[1..][1..] == [bufs[2]];
    assert Query([bufs[2]], 2).Some? && Query(bufs, 2) == Query(bufs[1..], 2) == Query(bufs[1..][1..], 2);
  }

  /// Its predecessor, one write earlier.
  function Nearly(): Pool {
    Pool([Buf(9, map[]), PairBuf(8, 1, D, 3, D), PairBuf(7, 1, D, 2, D)], 0)
  }

  lemma {:induction false} SplitRound(x: Pool, disk: map<nat, Sealed>, spec: map<nat, Data>)
    requires Quiet(x, 3) && x.bufs[0].key == 8 && x.bufs[1] == PairBuf(7, 1, D, 2, D)
    requires Reachable(THREE, Live12(x, 0, 7, 0, [], None, [true, false], disk), spec)
    ensures Reachable(THREE, Split(Nearly(), Written(disk, 1, 8, D, D), 7, 8), spec[1 := D][3 := D])
  {
    var e := Live12(x, 0, 7, 0, [], None, [true, false], disk);
    Round(THREE, e, spec, 1, D, 3, D, 9, 1);
    Splits(Rotated(x, 9, 1, D, 3, D, 1), disk, 7, 8);
    hide Reachable, FlushTwo, AllocSegment;
    assert Rotated(x, 9, 1, D, 3, D, 0).bufs == Nearly().bufs;
  }

  lemma {:induction false} SplitWrite(disk: map<nat, Sealed>, spec: map<nat, Data>)
    requires Reachable(THREE, Split(Nearly(), disk, 7, 8), spec)
    ensures Reachable(THREE, Split(Mixed(9), disk, 7, 8), spec[1 := D])
  {
    WriteHalf(THREE, Split(Nearly(), disk, 7, 8), spec, 1, D, 10);
    hide Reachable;
    assert [Buf(9, map[1 := D])] + Nearly().bufs[1..] == Mixed(9).bufs;
  }

  lemma {:induction false} SplitDisk()
    ensures var disk := Written(Written(map[], 0, 7, D, D), 1, 8, D, D); 1 in disk && disk[1] == Sealed(7, 1, D)
  {
  }

  lemma {:induction false} DroppedRead(disk: map<nat, Sealed>, spec: map<nat, Data>)
    requires Reachable(THREE, Dropped(Mixed(9), disk, 8), spec) && 2 in spec
    ensures Loses(THREE, 2)
  {
    var e := Dropped(Mixed(9), disk, 8);
    WriteFull(THREE, e, spec, 1, D, 3, D, 10);
    hide Reachable;
    var bufs := [Buf(10, map[]), PairBuf(9, 1, D, 3, D), PairBuf(8, 1, D, 3, D)];
    assert [Buf(10, map[]), PairBuf(9, 1, D, 3, D)] + Mixed(9).bufs[1..2] == bufs;
    NotThere(bufs, 2);
    hide Query;
    var e1 := e.(pool := Pool(bufs, 1));
    assert Reachable(THREE, e1, spec[3 := D]) && Read(e1, 2).None?;
  }

  /// The collector drops a block because some buffer has its number, although that buffer was flushed to
  /// the very segment that is collected.  Two writes later the buffer is recycled and block 2 is gone.
  lemma {:induction false} FlushedBufferLosesData()
    ensures Loses(THREE, 2)
  {
    hide *;
    Valids();
    var p0 := Init(THREE, 7).pool;
    FirstRound(THREE, D, D);
    var p1, s1 := Rotated(p0, 8, 1, D, 2, D, 0), map[1 := D, 2 := D];
    StillQuiet(p0, 3, 8, 1, D, 2, D);
    SecondBuf(p0, 8);
    SplitRound(p1, Written(map[], 0, 7, D, D), s1);
    SplitDisk();
    var disk := Written(Written(map[], 0, 7, D, D), 1, 8, D, D);
    SplitWrite(disk, s1[1 := D][3 := D]);
    MixedHas2(9);
    MixedSize(9);
    CollectSplit(Mixed(9), disk, 7, 8, s1[1 := D][3 := D][1 := D]);
    DroppedRead(disk, s1[1 := D][3 := D][1 := D]);
  }

  lemma {:induction false} SecondBuf(p: Pool, newKey: nat)
    requires Quiet(p, 3)
    ensures |p.bufs| == 3 && Rotated(p, newKey, 1, D, 2, D, 0).bufs[1] == PairBuf(p.bufs[0].key, 1, D, 2, D)
  {
  }

  lemma {:induction false} MixedSize(key: nat)
    ensures |Mixed(key).bufs| == 3
  {
  }

  // ---------------------------------------------------------------- a reissued address

  function Tab(a: nat, p: nat, b: nat, q: nat, key: nat): Table {
    map[a := Value(p, key), b := Value(q, key)]
  }

  /// A flush to a fresh segment that fills the memtable.
  function Flushed(e: Engine, a: nat, b: nat, seg: nat, key: nat, unseen: bool): Engine
    requires 2 * seg + 1 < |e.rit| && seg < |e.used| && seg < |e.svt|
  {
    e.(ix := Layers(map[], 0, Some(Tab(a, 2 * seg, b, 2 * seg + 1, key)), true, e.ix.l0, e.ix.l1),
       rit := e.rit[2 * seg := a][2 * seg + 1 := b], used := e.used[seg := BOTH], tree := Remove(e.tree, seg),
       svt := e.svt[seg := true], disk := Written(e.disk, seg, key, D, D), ok := e.ok && unseen)
  }

  lemma {:induction false} SecondUnseen(l: Layers, a: nat, c: Cell, b: nat, q: nat)
    requires l.mem == map[] && a != b
    ensures Unseen(l.(mem := map[a := c], size := 1), b, q) <==> Unseen(l, b, q)
  {
    var l1 := l.(mem := map[a := c], size := 1);
    assert Levels(l1)[1..] == Levels(l)[1..];
    assert Levels(l1)[0] == map[a := c] && Levels(l)[0] == map[];
    assert forall i :: 1 <= i < 4 ==> Levels(l1)[i] == Levels(l1)[1..][i-1] && Levels(l)[i] == Levels(l)[1..][i-1];
    assert forall i :: 0 <= i < 4 ==> Val(Levels(l1)[i], b) == Val(Levels(l)[i], b);
  }

  lemma {:induction false} FlushFull(c: Config, e: Engine, a: nat, b: nat, seg: nat, key: nat)
    requires c.Valid() && c.bps == 2 && c.cap == 2 && a != b && e.ix.mem == map[] && e.ix.size == 0 && !e.ix.immPending
    requires 2 * seg + 1 < |e.rit| && seg < |e.used| && seg < |e.svt|
    ensures FlushTwo(c, AllocSegment(c, e, seg), a, D, b, D, seg, key) ==
      Flushed(e, a, b, seg, key, Unseen(e.ix, a, 2 * seg) && Unseen(e.ix, b, 2 * seg + 1))
  {
    var e0 := AllocSegment(c, e, seg);
    Bits();
    assert e0 == e.(used := e.used[seg := BOTH], tree := Remove(e.tree, seg), svt := e.svt[seg := true]);
    IssueNew(c, e0, a, 2 * seg, key, D);
    var e1 := NewOn(e0, a, 2 * seg, key, D, !Unseen(e0.ix, a, 2 * seg));
    SecondUnseen(e0.ix, a, Value(2 * seg, key), b, 2 * seg + 1);
    IssueLast(c, e1, b, 2 * seg + 1, key, D);
    hide Issue, Unseen, Below, Remove;
    assert e1.ix.mem == map[a := Value(2 * seg, key)];
  }

  lemma {:induction false} UnseenIs(l: Layers, k: nat, pba: nat)
    requires l.mem == map[] && !l.immPending
    ensures Unseen(l, k, pba) <==> NotAt(TableOf(l.l0), k, pba) && NotAt(l.l1, k, pba)
  {
    assert Levels(l) == [map[], map[], TableOf(l.l0), l.l1];
    assert Val(Levels(l)[2], k) == Val(TableOf(l.l0), k) && Val(Levels(l)[3], k) == Val(l.l1, k);
  }

  predicate NotAt(t: Table, k: nat, pba: nat) {
    Val(t, k).Some? ==> Val(t, k).value.pba != pba
  }

  /// Two writes, and a flush to a fresh segment that fills the memtable.
  lemma {:induction false} FullRound(e: Engine, spec: map<nat, Data>, a: nat, b: nat, newKey: nat, seg: nat, unseen: bool)
    requires Quiet(e.pool, 2) && a < b < MAX_KEY && Reachable(SMALL, e, spec)
    requires e.ix.mem == map[] && e.ix.size == 0 && !e.ix.immPending
    requires |e.rit| == 6 && seg < |e.used| == |e.svt| == 3 && !e.svt[seg] && e.used[seg] == {}
    requires unseen <==> NotAt(TableOf(e.ix.l0), a, 2 * seg) && NotAt(e.ix.l1, a, 2 * seg)
                         && NotAt(TableOf(e.ix.l0), b, 2 * seg + 1) && NotAt(e.ix.l1, b, 2 * seg + 1)
    ensures Reachable(SMALL, Flushed(e, a, b, seg, e.pool.bufs[0].key, unseen).(pool := Rotated(e.pool, newKey, a, D, b, D, 0)),
                      spec[a := D][b := D])
  {
    Round(SMALL, e, spec, a, D, b, D, newKey, seg);
    FlushFull(SMALL, e.(pool := Rotated(e.pool, newKey, a, D, b, D, 1)), a, b, seg, e.pool.bufs[0].key);
    UnseenIs(e.ix, a, 2 * seg);
    UnseenIs(e.ix, b, 2 * seg + 1);
    hide Reachable, FlushTwo, AllocSegment, Unseen, Rotated, NotAt, Remove;
  }

  const T1: Table := Tab(1, 0, 2, 1, 7)
  const T2: Table := Tab(1, 2, 3, 3, 8)
  const T3: Table := Tab(1, 4, 2, 5, 9)
  const T4: Table := Tab(1, 0, 2, 1, 10)
  const M1: Table := map[1 := Value(2, 8), 2 := Value(1, 7), 3 := Value(3, 8)]
  const M2: Table := map[1 := Value(4, 9), 2 := Value(5, 9), 3 := Value(3, 8)]

  /// Between two rounds: the memtable is empty and the last one compacted.
  function Small(p: Pool, top: Table, l1: Table, rit: seq<nat>, used: seq<set<nat>>, tree: seq<Victim>, svt: seq<bool>,
                 disk: map<nat, Sealed>, ok: bool): Engine {
    Engine(p, Layers(map[], 0, Some(top), false, Some(top), l1), rit, used, tree, None, svt, disk, ok)
  }

  /// After the flush: the full memtable waits for its compaction.
  function Filled(p: Pool, top: Table, l0: Option<Table>, l1: Table, rit: seq<nat>, used: seq<set<nat>>, tree: seq<Victim>,
                  svt: seq<bool>, disk: map<nat, Sealed>, ok: bool): Engine {
    Engine(p, Layers(map[], 0, Some(top), true, l0, l1), rit, used, tree, None, svt, disk, ok)
  }

  lemma {:induction false} TablesOk()
    ensures TableOk(map[]) && TableOk(T1) && TableOk(M1) && TableOk(M2)
    ensures MergedValues(T1, map[], T1)
  {
  }

  lemma {:induction false} Merged1()
    ensures MergedValues(T2, T1, M1)
  {
    hide TableOk, CellOk, TableOf;
  }

  lemma {:induction false} Merged2()
    ensures MergedValues(T3, M1, M2)
  {
    hide TableOk, CellOk, TableOf;
  }

  lemma {:induction false} Attempts()
    ensures Attempt(T2, T1, Entry(1, Record(0, 7)))
    ensures Attempt(T3, M1, Entry(1, Record(2, 8))) && Attempt(T3, M1, Entry(2, Record(1, 7)))
  {
  }

  /// Which old records the three compactions overwrite.
  lemma {:induction false} Overwrites()
    ensures forall k :: !Overwritten(map[], map[], k) && !Overwritten(T1, map[], k)
    ensures forall k :: Overwritten(T2, T1, k) ==> Entry(k, LastRecord(T1[k])) == Entry(1, Record(0, 7))
    ensures forall k :: Overwritten(T3, M1, k) ==>
      Entry(k, LastRecord(M1[k])) in [Entry(1, Record(2, 8)), Entry(2, Record(1, 7))]
  {
    assert forall k :: k in T3 <==> k == 1 || k == 2;
    assert forall k :: k in T2 && k in T1 ==> k == 1;
    assert [Entry(1, Record(2, 8)), Entry(2, Record(1, 7))][0] == Entry(1, Record(2, 8));
    assert [Entry(1, Record(2, 8)), Entry(2, Record(1, 7))][1] == Entry(2, Record(1, 7));
  }

  lemma {:induction false} IsCompaction(l: Layers, l1': Table, att: seq<Entry>)
    requires TableOk(l1') && (l.l0.Some? ==> MergedValues(l.l0.value, l.l1, l1'))
    requires forall a :: a in att ==> Attempt(TableOf(l.l0), l.l1, a)
    requires forall k :: Overwritten(TableOf(l.l0), l.l1, k) ==> Entry(k, LastRecord(l.l1[k])) in att
    ensures CompactionOk(l, l1', att)
  {
  }

  /// One compaction: `rit`, `used` and `tree` are what its releases leave.
  lemma {:induction false} CompactRound(e: Engine, spec: map<nat, Data>, top: Table, l1': Table, att: seq<Entry>,
                                        rit: seq<nat>, used: seq<set<nat>>, tree: seq<Victim>)
    requires Reachable(SMALL, e, spec) && e.ix.imm == Some(top) && e.ix.immPending && e.ix.mem == map[] && e.ix.size == 0
    requires e.logging == None && TableOk(l1')
    requires e.ix.l0.Some? ==> MergedValues(e.ix.l0.value, e.ix.l1, l1')
    requires forall a :: a in att ==> Attempt(TableOf(e.ix.l0), e.ix.l1, a)
    requires forall k :: Overwritten(TableOf(e.ix.l0), e.ix.l1, k) ==> Entry(k, LastRecord(e.ix.l1[k])) in att
    requires ReleaseAll(SMALL, e, att) == e.(rit := rit, used := used, tree := tree)
    ensures Reachable(SMALL, Small(e.pool, top, if e.ix.l0.Some? then l1' else e.ix.l1, rit, used, tree, e.svt, e.disk, e.ok), spec)
  {
    IsCompaction(e.ix, l1', att);
    GoCompact(SMALL, e, spec, l1', att);
    hide Reachable, ReleaseAll, CompactionOk, Attempt, TableOk, MergedValues, Overwritten, LastRecord;
  }

  lemma {:induction false} Releases(c: Config, e: Engine, a: Entry, b: Entry)
    requires c.Valid()
    ensures ReleaseAll(c, e, []) == e && ReleaseAll(c, e, [a]) == Release(c, e, a.key, a.rec.pba)
    ensures ReleaseAll(c, e, [a, b]) == Release(c, Release(c, e, a.key, a.rec.pba), b.key, b.rec.pba)
  {
    hide Release;
    assert [a, b][..1] == [a] && [a][..0] == [];
    assert ReleaseAll(c, e, []) == e;
    assert ReleaseAll(c, e, [a]) == Release(c, e, a.key, a.rec.pba);
  }

  lemma {:induction false} Released(c: Config, e: Engine, k: nat, pba: nat, seg: nat, was: set<nat>, bits: set<nat>, tree': seq<Victim>)
    requires c.Valid() && c.bps == 2 && pba < |e.rit| && e.rit[pba] == k
    requires seg == pba / 2 && seg < |e.used| && e.used[seg] == was && was != {} && bits == was - {pba % 2}
    requires tree' == Update(e.tree, seg, SegEntry(|bits|, bits), 2)
    ensures Release(c, e, k, pba) == e.(rit := e.rit[pba := X], used := e.used[seg := bits], tree := tree')
  {
    BitCleared(c, e, pba, seg, was, bits, e.used[seg := bits], tree');
    hide ClearBit, ReturnTree, Update;
  }

  // ---------------------------------------------------------------- round by round

  lemma {:induction false} SmallFirst()
    ensures var p := Rotated(Init(SMALL, 7).pool, 8, 1, D, 2, D, 0);
      && Quiet(p, 2) && p.bufs[0].key == 8
      && Reachable(SMALL, Small(p, T1, map[], [1, 2, 0, 0, 0, 0], [BOTH, {}, {}], [], [true, false, false],
                                Written(map[], 0, 7, D, D), true), map[1 := D, 2 := D])
  {
    hide *;
    Valids();
    SmallFill();
    SmallTables();
    StillQuiet(Init(SMALL, 7).pool, 2, 8, 1, D, 2, D);
    TablesOk();
    Overwrites();
    var q := Rotated(Init(SMALL, 7).pool, 8, 1, D, 2, D, 0);
    var e := Filled(q, T1, None, map[], [1, 2, 0, 0, 0, 0], [BOTH, {}, {}], [], [true, false, false], Written(map[], 0, 7, D, D), true);
    FilledIs(q, T1, None, map[], [1, 2, 0, 0, 0, 0], [BOTH, {}, {}], [], [true, false, false], Written(map[], 0, 7, D, D), true);
    Releases(SMALL, e, Entry(0, TOMBSTONE), Entry(0, TOMBSTONE));
    CompactRound(e, map[1 := D, 2 := D], T1, map[], [], e.rit, e.used, e.tree);
  }

  lemma {:induction false} SmallInit()
    ensures var e := Init(SMALL, 7);
      && Quiet(e.pool, 2) && |e.pool.bufs| == 2 && e.pool.bufs[0].key == 7 && e.ix == Layers(map[], 0, None, false, None, map[])
      && e.rit == [0, 0, 0, 0, 0, 0] && e.used == [{}, {}, {}] && e.tree == [] && e.svt == [false, false, false]
      && e.logging == None && e.disk == map[] && e.ok
  {
  }

  lemma {:induction false} SmallTables()
    ensures NotAt(map[], 1, 0) && NotAt(map[], 2, 1) && TableOf(None) == map[]
  {
  }

  lemma {:induction false} SmallFill()
    ensures var x := Init(SMALL, 7).pool;
      && Quiet(x, 2) && |x.bufs| == 2 && x.bufs[0].key == 7
      && Reachable(SMALL, Filled(Rotated(x, 8, 1, D, 2, D, 0), T1, None, map[], [1, 2, 0, 0, 0, 0], [BOTH, {}, {}], [],
                                 [true, false, false], Written(map[], 0, 7, D, D), true), map[1 := D, 2 := D])
  {
    hide Reachable, Rotated, Init, Quiet, NotAt, TableOf;
    SmallInit();
    SmallTables();
    Begin(SMALL);
    var e := Init(SMALL, 7);
    FullRound(e, map[], 1, 2, 8, 0, true);
    assert e.rit[0 := 1][1 := 2] == [1, 2, 0, 0, 0, 0] && e.used[0 := BOTH] == [BOTH, {}, {}];
    assert e.svt[0 := true] == [true, false, false];
  }

  lemma {:induction false} FilledIs(p: Pool, top: Table, l0: Option<Table>, l1: Table, rit: seq<nat>, used: seq<set<nat>>,
                                    tree: seq<Victim>, svt: seq<bool>, disk: map<nat, Sealed>, ok: bool)
    ensures var e := Filled(p, top, l0, l1, rit, used, tree, svt, disk, ok);
      && e.ix == Layers(map[], 0, Some(top), true, l0, l1) && e.pool == p && e.rit == rit && e.used == used && e.tree == tree
      && e.svt == svt && e.disk == disk && e.ok == ok && e.logging == None
    ensures l0.Some? ==> TableOf(l0) == l0.value
  {
  }

  lemma {:induction false} SmallSecond(p: Pool, disk: map<nat, Sealed>, spec: map<nat, Data>)
    requires Quiet(p, 2) && |p.bufs| == 2 && p.bufs[0].key == 8
    requires Reachable(SMALL, Small(p, T1, map[], [1, 2, 0, 0, 0, 0], [BOTH, {}, {}], [], [true, false, false], disk, true), spec)
    ensures Reachable(SMALL, Small(Rotated(p, 9, 1, D, 3, D, 0), T2, T1, [1, 2, 1, 3, 0, 0], [BOTH, BOTH, {}], [],
                                   [true, true, false], Written(disk, 1, 8, D, D), true), spec[1 := D][3 := D])
  {
    hide *;
    Valids();
    SecondFill(p, disk, spec);
    TablesOk();
    Overwrites();
    var q := Rotated(p, 9, 1, D, 3, D, 0);
    var e := Filled(q, T2, Some(T1), map[], [1, 2, 1, 3, 0, 0], [BOTH, BOTH, {}], [], [true, true, false], Written(disk, 1, 8, D, D), true);
    FilledIs(q, T2, Some(T1), map[], [1, 2, 1, 3, 0, 0], [BOTH, BOTH, {}], [], [true, true, false], Written(disk, 1, 8, D, D), true);
    Releases(SMALL, e, Entry(0, TOMBSTONE), Entry(0, TOMBSTONE));
    CompactRound(e, spec[1 := D][3 := D], T2, T1, [], e.rit, e.used, e.tree);
  }

  lemma {:induction false} SecondFill(p: Pool, disk: map<nat, Sealed>, spec: map<nat, Data>)
    requires Quiet(p, 2) && p.bufs[0].key == 8
    requires Reachable(SMALL, Small(p, T1, map[], [1, 2, 0, 0, 0, 0], [BOTH, {}, {}], [], [true, false, false], disk, true), spec)
    ensures Reachable(SMALL, Filled(Rotated(p, 9, 1, D, 3, D, 0), T2, Some(T1), map[], [1, 2, 1, 3, 0, 0], [BOTH, BOTH, {}], [],
                                    [true, true, false], Written(disk, 1, 8, D, D), true), spec[1 := D][3 := D])
  {
    var e := Small(p, T1, map[], [1, 2, 0, 0, 0, 0], [BOTH, {}, {}], [], [true, false, false], disk, true);
    FullRound(e, spec, 1, 3, 9, 1, true);
    hide Reachable, Rotated;
    assert e.rit[2 := 1][3 := 3] == [1, 2, 1, 3, 0, 0] && e.used[1 := BOTH] == [BOTH, BOTH, {}];
    assert e.svt[1 := true] == [true, true, false];
  }

  lemma {:induction false} SmallThird(p: Pool, disk: map<nat, Sealed>, spec: map<nat, Data>)
    requires Quiet(p, 2) && |p.bufs| == 2 && p.bufs[0].key == 9
    requires Reachable(SMALL, Small(p, T2, T1, [1, 2, 1, 3, 0, 0], [BOTH, BOTH, {}], [], [true, true, false], disk, true), spec)
    ensures Reachable(SMALL, Small(Rotated(p, 10, 1, D, 2, D, 0), T3, M1, [X, 2, 1, 3, 1, 2], [HIGH, BOTH, BOTH], [Victim(0, 1, HIGH)],
                                   [true, true, true], Written(disk, 2, 9, D, D), true), spec[1 := D][2 := D])
  {
    hide *;
    Valids();
    ThirdFill(p, disk, spec);
    TablesOk();
    Overwrites();
    Merged1();
    Attempts();
    var q, old1 := Rotated(p, 10, 1, D, 2, D, 0), Entry(1, Record(0, 7));
    var e := Filled(q, T3, Some(T2), T1, [1, 2, 1, 3, 1, 2], [BOTH, BOTH, BOTH], [], [true, true, true], Written(disk, 2, 9, D, D), true);
    FilledIs(q, T3, Some(T2), T1, [1, 2, 1, 3, 1, 2], [BOTH, BOTH, BOTH], [], [true, true, true], Written(disk, 2, 9, D, D), true);
    Releases(SMALL, e, old1, old1);
    FirstFree(e);
    CompactRound(e, spec[1 := D][2 := D], T3, M1, [old1], [X, 2, 1, 3, 1, 2], [HIGH, BOTH, BOTH], [Victim(0, 1, HIGH)]);
  }

  lemma {:induction false} FirstFree(e: Engine)
    requires e.rit == [1, 2, 1, 3, 1, 2] && e.used == [BOTH, BOTH, BOTH] && e.tree == []
    ensures Release(SMALL, e, 1, 0) == e.(rit := [X, 2, 1, 3, 1, 2], used := [HIGH, BOTH, BOTH], tree := [Victim(0, 1, HIGH)])
  {
    Bits();
    Trees();
    Released(SMALL, e, 1, 0, 0, BOTH, HIGH, [Victim(0, 1, HIGH)]);
    hide Release, Update, Below;
  }

  lemma {:induction false} ThirdFill(p: Pool, disk: map<nat, Sealed>, spec: map<nat, Data>)
    requires Quiet(p, 2) && p.bufs[0].key == 9
    requires Reachable(SMALL, Small(p, T2, T1, [1, 2, 1, 3, 0, 0], [BOTH, BOTH, {}], [], [true, true, false], disk, true), spec)
    ensures Reachable(SMALL, Filled(Rotated(p, 10, 1, D, 2, D, 0), T3, Some(T2), T1, [1, 2, 1, 3, 1, 2], [BOTH, BOTH, BOTH], [],
                                    [true, true, true], Written(disk, 2, 9, D, D), true), spec[1 := D][2 := D])
  {
    var e := Small(p, T2, T1, [1, 2, 1, 3, 0, 0], [BOTH, BOTH, {}], [], [true, true, false], disk, true);
    FullRound(e, spec, 1, 2, 10, 2, true);
    hide Reachable, Rotated;
    assert e.rit[4 := 1][5 := 2] == [1, 2, 1, 3, 1, 2] && e.used[2 := BOTH] == [BOTH, BOTH, BOTH];
    assert e.svt[2 := true] == [true, true, true];
  }

  /// The collector finds that block 2 moved on, and leaves its old record in level 1.
  lemma {:induction false} SmallCollect(p: Pool, disk: map<nat, Sealed>, spec: map<nat, Data>)
    requires |p.bufs| == 2
    requires Reachable(SMALL, Small(p, T3, M1, [X, 2, 1, 3, 1, 2], [HIGH, BOTH, BOTH], [Victim(0, 1, HIGH)], [true, true, true], disk, true), spec)
    ensures Reachable(SMALL, Small(p, T3, M1, [X, X, 1, 3, 1, 2], [{}, BOTH, BOTH], [], [false, true, true], disk, true), spec)
  {
    var e := Small(p, T3, M1, [X, 2, 1, 3, 1, 2], [HIGH, BOTH, BOTH], [Victim(0, 1, HIGH)], [true, true, true], disk, true);
    assert e.tree[0] == Victim(0, 1, HIGH) && e.tree[1..] == [];
    assert Poppable(e.tree, e.logging) == e.tree;
    GoCollect(SMALL, e, spec, 0, HIGH, 0);
    OneBit(SMALL, e.(tree := []), 0);
    NotMoved(e.(tree := []));
    hide Reachable, GcUpTo, GcBlock;
    assert AfterPop(e).(ok := e.ok && e.logging != Some(0)) == e.(tree := []);
    assert e.used[0 := {}] == [{}, BOTH, BOTH] && e.svt[0 := false] == [false, true, true];
  }

  lemma {:induction false} NotMoved(e: Engine)
    requires |e.pool.bufs| >= 1 && e.rit == [X, 2, 1, 3, 1, 2] && e.ix == Layers(map[], 0, Some(T3), false, Some(T3), M1)
    ensures GcBlock(SMALL, e, 1, 0) == e.(rit := [X, X, 1, 3, 1, 2])
  {
    assert Lookup(e.ix, 2) == Some(Record(5, 9));
    assert e.rit[1 := INF_ADDR] == [X, X, 1, 3, 1, 2];
  }

  /// Level 1 still has address 1 for block 2.
  lemma {:induction false} FourthSeen()
    ensures !NotAt(M1, 2, 1) && TableOf(Some(T3)) == T3
  {
  }

  lemma {:induction false} FourthFill(p: Pool, disk: map<nat, Sealed>, spec: map<nat, Data>)
    requires Quiet(p, 2) && p.bufs[0].key == 10
    requires Reachable(SMALL, Small(p, T3, M1, [X, X, 1, 3, 1, 2], [{}, BOTH, BOTH], [], [false, true, true], disk, true), spec)
    ensures Reachable(SMALL, Filled(Rotated(p, 11, 1, D, 2, D, 0), T4, Some(T3), M1, [1, 2, 1, 3, 1, 2], [BOTH, BOTH, BOTH], [],
                                    [true, true, true], Written(disk, 0, 10, D, D), false), spec[1 := D][2 := D])
  {
    hide Reachable, Rotated, NotAt;
    FourthSeen();
    var e := Small(p, T3, M1, [X, X, 1, 3, 1, 2], [{}, BOTH, BOTH], [], [false, true, true], disk, true);
    FullRound(e, spec, 1, 2, 11, 0, false);
    assert e.rit[0 := 1][1 := 2] == [1, 2, 1, 3, 1, 2] && e.used[0 := BOTH] == [BOTH, BOTH, BOTH];
    assert e.svt[0 := true] == [true, true, true];
  }

  lemma {:induction false} BothFree(e: Engine)
    requires e.rit == [1, 2, 1, 3, 1, 2] && e.used == [BOTH, BOTH, BOTH] && e.tree == []
    ensures Release(SMALL, Release(SMALL, e, 1, 2), 2, 1) ==
      e.(rit := [1, X, X, 3, 1, 2], used := [LOW, HIGH, BOTH], tree := [Victim(1, 1, HIGH), Victim(0, 1, LOW)])
  {
    Bits();
    Trees();
    Released(SMALL, e, 1, 2, 1, BOTH, HIGH, [Victim(1, 1, HIGH)]);
    var e1 := e.(rit := [1, 2, X, 3, 1, 2], used := [BOTH, HIGH, BOTH], tree := [Victim(1, 1, HIGH)]);
    Released(SMALL, e1, 2, 1, 0, BOTH, LOW, [Victim(1, 1, HIGH), Victim(0, 1, LOW)]);
    hide Release, Update, Below;
    assert e.rit[2 := X] == e1.rit && e.used[1 := HIGH] == e1.used;
    assert e1.rit[1 := X] == [1, X, X, 3, 1, 2] && e1.used[0 := LOW] == [LOW, HIGH, BOTH];
  }

  /// Block 2 went back to address 1 while level 1 still recorded that address: the next compaction frees
  /// it under the live record.
  lemma {:induction false} SmallFourth(p: Pool, disk: map<nat, Sealed>, spec: map<nat, Data>)
    requires Quiet(p, 2) && |p.bufs| == 2 && p.bufs[0].key == 10
    requires Reachable(SMALL, Small(p, T3, M1, [X, X, 1, 3, 1, 2], [{}, BOTH, BOTH], [], [false, true, true], disk, true), spec)
    ensures Reachable(SMALL, Small(Rotated(p, 11, 1, D, 2, D, 0), T4, M2, [1, X, X, 3, 1, 2], [LOW, HIGH, BOTH],
                                   [Victim(1, 1, HIGH), Victim(0, 1, LOW)], [true, true, true], Written(disk, 0, 10, D, D), false),
                      spec[1 := D][2 := D])
  {
    hide *;
    Valids();
    FourthFill(p, disk, spec);
    TablesOk();
    Overwrites();
    Merged2();
    Attempts();
    var q, old1, old2 := Rotated(p, 11, 1, D, 2, D, 0), Entry(1, Record(2, 8)), Entry(2, Record(1, 7));
    var e := Filled(q, T4, Some(T3), M1, [1, 2, 1, 3, 1, 2], [BOTH, BOTH, BOTH], [], [true, true, true], Written(disk, 0, 10, D, D), false);
    FilledIs(q, T4, Some(T3), M1, [1, 2, 1, 3, 1, 2], [BOTH, BOTH, BOTH], [], [true, true, true], Written(disk, 0, 10, D, D), false);
    Releases(SMALL, e, old1, old2);
    BothFree(e);
    CompactRound(e, spec[1 := D][2 := D], T4, M2, [old1, old2], [1, X, X, 3, 1, 2], [LOW, HIGH, BOTH],
                 [Victim(1, 1, HIGH), Victim(0, 1, LOW)]);
  }

  /// The state after that compaction.
  function Freed(p: Pool, disk: map<nat, Sealed>): Engine {
    Small(p, T4, M2, [1, X, X, 3, 1, 2], [LOW, HIGH, BOTH], [Victim(1, 1, HIGH), Victim(0, 1, LOW)], [true, true, true], disk, false)
  }

  /// Threaded logging has put block 3 at the freed address.
  function Reused(p: Pool, disk: map<nat, Sealed>): Engine {
    Engine(p, Layers(map[3 := Value(1, 11)], 1, Some(T4), false, Some(T4), M2), [1, 3, X, 3, 1, 2], [BOTH, HIGH, BOTH],
           [Victim(1, 1, HIGH)], Some(0), [true, true, true], disk[1 := Sealed(11, 1, D)], false)
  }

  lemma {:induction false} ThirdLogged(p: Pool, disk: map<nat, Sealed>)
    ensures MayLog(SMALL, Freed(p, disk), 1) && LogBlock(SMALL, Freed(p, disk), 3, Some(1), 11, D) == Reused(p, disk)
  {
    Bits();
    var e := Freed(p, disk);
    assert Remove([Victim(1, 1, HIGH), Victim(0, 1, LOW)], 0) == [Victim(1, 1, HIGH)];
    var e0 := TakeBlockState(SMALL, e, 1);
    assert e0 == e.(used := [BOTH, HIGH, BOTH], tree := [Victim(1, 1, HIGH)], logging := Some(0));
    IssueNew(SMALL, e0, 3, 1, 11, D);
    hide Issue, Unseen, Below, Remove;
    assert e0.rit[1 := 3] == [1, 3, X, 3, 1, 2];
  }

  /// The full logging segment is left for segment 1, the last victim.
  lemma {:induction false} FourthTaken(p: Pool, disk: map<nat, Sealed>)
    ensures var e := Reused(p, disk);
      && MayLog(SMALL, e, 2)
      && TakeBlockState(SMALL, e, 2) == e.(used := [BOTH, BOTH, BOTH], tree := [], logging := Some(1))
  {
    Bits();
    var e := Reused(p, disk);
    assert Remove([Victim(1, 1, HIGH)], 0) == [Victim(1, 1, HIGH)] && Remove([Victim(1, 1, HIGH)], 1) == [];
    assert LeaveFull(SMALL, e) == e.(logging := None);
    hide Below;
  }

  lemma {:induction false} FourthLogged(p: Pool, disk: map<nat, Sealed>)
    ensures MayLog(SMALL, Reused(p, disk), 2)
    ensures var e := LogBlock(SMALL, Reused(p, disk), 4, Some(2), 11, D);
      && e.ix == Layers(map[], 0, Some(map[3 := Value(1, 11), 4 := Value(2, 11)]), true, Some(T4), M2)
      && 1 in e.disk && e.disk[1] == Sealed(11, 1, D)
  {
    hide Issue, Unseen, TakeBlockState, MayLog;
    FourthTaken(p, disk);
    var e0 := TakeBlockState(SMALL, Reused(p, disk), 2);
    IssueLast(SMALL, e0, 4, 2, 11, D);
  }

  lemma {:induction false} FreedLog(p: Pool, disk: map<nat, Sealed>, spec: map<nat, Data>)
    requires Quiet(p, 2) && |p.bufs| == 2 && p.bufs[0].key == 11 && p.bufs[0].blocks == map[] && p.pending == 0
    requires Reachable(SMALL, Freed(p, disk), spec)
    ensures Reachable(SMALL, LogEnd(SMALL, Freed(p, disk), 3, D, 1, 4, D, 2, 12), spec[3 := D][4 := D])
    ensures LogEnd(SMALL, Freed(p, disk), 3, D, 1, 4, D, 2, 12) ==
      LogBlock(SMALL, Reused(Rotated(p, 12, 3, D, 4, D, 1), disk), 4, Some(2), 11, D).(pool := Rotated(p, 12, 3, D, 4, D, 0))
  {
    hide *;
    Valids();
    SmallKeys();
    var x, e := Rotated(p, 12, 3, D, 4, D, 1), Freed(p, disk);
    FreedPool(p, disk, x);
    ThirdLogged(x, disk);
    FourthLogged(x, disk);
    LogEndIs(SMALL, e, 3, D, 1, 4, D, 2, 12);
    MayLogTwoIs(SMALL, Freed(x, disk), 3, D, 1, 2, 11);
    LogTwoIs(SMALL, Freed(x, disk), 3, D, 1, 4, D, 2, 11);
    MayLogRoundIs(SMALL, e, 3, D, 1, 4, D, 2, 12);
    LogRound(SMALL, e, spec, 3, D, 1, 4, D, 2, 12);
  }

  lemma {:induction false} FreedPool(p: Pool, disk: map<nat, Sealed>, x: Pool)
    ensures S.AllSet(Freed(p, disk).svt) && Freed(p, disk).pool == p && Freed(p, disk).(pool := x) == Freed(x, disk)
  {
  }

  lemma {:induction false} FreedRead(p: Pool, disk: map<nat, Sealed>, spec: map<nat, Data>)
    requires Quiet(p, 2) && p.bufs[0].key == 11 && Reachable(SMALL, Freed(p, disk), spec) && 2 in spec
    ensures Loses(SMALL, 2)
  {
    hide *;
    Valids();
    StillQuiet(p, 2, 12, 3, D, 4, D);
    QuietParts(p, 2);
    FreedPool(p, disk, p);
    FreedLog(p, disk, spec);
    FourthLogged(Rotated(p, 12, 3, D, 4, D, 1), disk);
    var e1 := LogEnd(SMALL, Freed(p, disk), 3, D, 1, 4, D, 2, 12);
    GoneRead(p, e1);
    LosesIs(SMALL, e1, spec[3 := D][4 := D], 2);
  }

  lemma {:induction false} GoneRead(p: Pool, e: Engine)
    requires Quiet(p, 2) && p.bufs[0].key == 11 && e.pool == Rotated(p, 12, 3, D, 4, D, 0)
    requires e.ix == Layers(map[], 0, Some(map[3 := Value(1, 11), 4 := Value(2, 11)]), true, Some(T4), M2)
    requires 1 in e.disk && e.disk[1] == Sealed(11, 1, D)
    ensures Read(e, 2).None?
  {
    assert e.pool.bufs == [Buf(12, map[]), PairBuf(11, 3, D, 4, D)];
    NotThere(e.pool.bufs, 2);
    hide Query;
    assert Lookup(e.ix, 2) == Some(Record(1, 10));
  }

  /// The release check compares block numbers only.  Block 2 moves from address 1 to address 5 while level
  /// 1 still records address 1; the collector frees segment 0, and the next flush puts block 2 at address 1
  /// again.  The compaction that meets the old record releases address 1 under the live one, and threaded
  /// logging hands it to block 3.
  lemma {:induction false} ReissuedBlockIsFreed()
    ensures Loses(SMALL, 2)
    ensures exists e, spec :: Reachable(SMALL, e, spec) && Live(e.ix, 2) == Some(Record(1, 10)) && !UsedBit(SMALL, e.used, 1)
  {
    hide *;
    Valids();
    var p0 := Init(SMALL, 7).pool;
    SmallFirst();
    SmallFill();
    var p1, d1, s1 := Rotated(p0, 8, 1, D, 2, D, 0), Written(map[], 0, 7, D, D), map[1 := D, 2 := D];
    StillQuiet(p0, 2, 8, 1, D, 2, D);
    SmallSecond(p1, d1, s1);
    var p2, d2, s2 := Rotated(p1, 9, 1, D, 3, D, 0), Written(d1, 1, 8, D, D), s1[1 := D][3 := D];
    StillQuiet(p1, 2, 9, 1, D, 3, D);
    SmallThird(p2, d2, s2);
    var p3, d3, s3 := Rotated(p2, 10, 1, D, 2, D, 0), Written(d2, 2, 9, D, D), s2[1 := D][2 := D];
    StillQuiet(p2, 2, 10, 1, D, 2, D);
    SmallCollect(p3, d3, s3);
    SmallFourth(p3, d3, s3);
    var p4, d4, s4 := Rotated(p3, 11, 1, D, 2, D, 0), Written(d3, 0, 10, D, D), s3[1 := D][2 := D];
    StillQuiet(p3, 2, 11, 1, D, 2, D);
    FreedIs(p4, d4);
    FreedRead(p4, d4, s4);
    assert Reachable(SMALL, Freed(p4, d4), s4);
  }

  lemma {:induction false} FreedIs(p: Pool, disk: map<nat, Sealed>)
    ensures Freed(p, disk) ==
      Small(p, T4, M2, [1, X, X, 3, 1, 2], [LOW, HIGH, BOTH], [Victim(1, 1, HIGH), Victim(0, 1, LOW)], [true, true, true], disk, false)
    ensures Live(Freed(p, disk).ix, 2) == Some(Record(1, 10)) && !UsedBit(SMALL, Freed(p, disk).used, 1)
  {
  }
}
