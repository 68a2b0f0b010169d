/** The engine's bitmaps, segment bits, victim tree and logging segment stay in agreement: what
garbage collection pops is an exact copy, unless it is a node of the logging segment. */
module EngineTree {
  import opened Common
  import opened Index
  import opened Engine
  import opened Victims
  import opened Segments

  // ---------------------------------------------------------------- block numbers

  lemma {:induction false} MulGap(b: nat, x: int)
    ensures x >= 1 ==> b * x >= b
    ensures x <= -1 ==> b * x <= 0 - b
  {
  }

  lemma {:induction false} DivMod(b: nat, s: nat, o: nat)
    requires 1 <= b && o < b
    ensures (s * b + o) / b == s && (s * b + o) % b == o
  {
    var q, m := (s * b + o) / b, (s * b + o) % b;
    assert b * q + m == s * b + o;
    assert b * (q - s) == o - m;
    MulGap(b, q - s);
  }

  lemma {:induction false} PbaBound(c: Config, pba: nat)
    requires c.Valid()
    ensures pba < c.nseg * c.bps <==> SegOf(c, pba) < c.nseg
    ensures OffOf(c, pba) < c.bps
    ensures pba == SegOf(c, pba) * c.bps + OffOf(c, pba)
  {
    var q := SegOf(c, pba);
    assert pba == q * c.bps + pba % c.bps;
    if q < c.nseg {
      assert (q + 1) * c.bps <= c.nseg * c.bps;
    } else {
      assert q * c.bps >= c.nseg * c.bps;
    }
  }

  lemma {:induction false} SamePba(c: Config, p: nat, q: nat)
    requires c.Valid()
    ensures SegOf(c, p) == SegOf(c, q) && OffOf(c, p) == OffOf(c, q) ==> p == q
  {
    PbaBound(c, p);
    PbaBound(c, q);
  }

  /// The table that the bitmaps stand for.
  function EntriesOf(used: seq<set<nat>>): (r: seq<SegEntry>)
    ensures |r| == |used| && forall s :: 0 <= s < |used| ==> r[s] == EntryOf(used[s])
  {
    seq(|used|, s requires 0 <= s < |used| => EntryOf(used[s]))
  }

  /// The tree is an exact index of the partly valid segments; a segment that is used, indexed or logged
  /// to has its bit set.  `popped` is the segment under collection.
  ghost predicate TreeInv(c: Config, e: Engine, popped: Option<nat>) {
    && |e.used| == |e.svt| == c.nseg
    && Agree(EntriesOf(e.used), e.tree, e.logging, popped, c.bps)
    && Tied(e.svt, Count(e.svt), EntriesOf(e.used), e.tree, e.logging)
  }

  lemma {:induction false} SameTree(c: Config, e: Engine, e1: Engine, popped: Option<nat>)
    requires TreeInv(c, e, popped)
    requires e1.used == e.used && e1.svt == e.svt && e1.tree == e.tree && e1.logging == e.logging
    ensures TreeInv(c, e1, popped)
  {
  }

  lemma {:induction false} EntryChange(used: seq<set<nat>>, s: nat, bits: set<nat>)
    requires s < |used|
    ensures EntriesOf(used[s := bits]) == EntriesOf(used)[s := EntryOf(bits)]
  {
  }

  lemma {:induction false} SmallerSet(x: set<nat>, y: set<nat>)
    requires y <= x
    ensures |y| <= |x|
  {
    assert y + (x - y) == x;
  }

  // ---------------------------------------------------------------- release and put

  /// Releasing a block refreshes the node of its segment.
  lemma {:induction false} ReleaseTree(c: Config, e: Engine, lba: nat, pba: nat)
    requires c.Valid() && TreeInv(c, e, None)
    ensures TreeInv(c, Release(c, e, lba, pba), None)
  {
    var e1 := Release(c, e, lba, pba);
    var s := SegOf(c, pba);
    if e1 != e && s < |e.used| {
      var bits := e.used[s] - {OffOf(c, pba)};
      EntryChange(e.used, s, bits);
      if e.used[s] == {} {
        assert bits == e.used[s];
        assert e1.used == e.used;
        SameTree(c, e, e1, None);
      } else {
        SmallerSet(e.used[s], bits);
        var es := EntriesOf(e.used);
        hide Agree, Tied, Update, Release;
        NodeRefreshed(c, e, s, bits);
      }
    }
  }

  lemma {:induction false} NodeRefreshed(c: Config, e: Engine, s: nat, bits: set<nat>)
    requires c.Valid() && TreeInv(c, e, None) && s < |e.used| && bits <= e.used[s] && e.used[s] != {}
    ensures TreeInv(c, e.(used := e.used[s := bits], tree := Update(e.tree, s, EntryOf(bits), c.bps)), None)
  {
    var es, x := EntriesOf(e.used), EntryOf(bits);
    EntryChange(e.used, s, bits);
    SmallerSet(e.used[s], bits);
    assert es[s].bits == e.used[s] && EntryOk(es[s], c.bps);
    UpdateAgrees(es, e.tree, e.logging, None, c.bps, s, x);
    SetSome(e.used[s]);
    hide Agree, Update;
    TiedBlock(e.svt, Count(e.svt), es, e.tree, e.logging, es[s := x], Update(e.tree, s, x, c.bps));
  }

  lemma {:induction false} SetSome(s: set<nat>)
    ensures s != {} <==> |s| > 0
  {
  }

  lemma {:induction false} PutTree(c: Config, e: Engine, lba: nat, v: Option<Record>)
    requires c.Valid() && TreeInv(c, e, None)
    ensures TreeInv(c, PutRecord(c, e, lba, v), None)
  {
    var e1 := e.(ix := Put(e.ix, c.cap, lba, v), ok := e.ok && (Rotates(e.ix, c.cap, lba, v) ==> !e.ix.immPending));
    SameTree(c, e, e1, None);
    var prev := Replaced(e.ix.mem, lba, v);
    if prev.Some? { ReleaseTree(c, e1, lba, prev.value.pba); }
    hide TreeInv, Release, Put, Rotates, Replaced;
  }

  lemma {:induction false} IssueTree(c: Config, e: Engine, lba: nat, pba: nat, key: nat, d: Data)
    requires c.Valid() && TreeInv(c, e, None)
    ensures TreeInv(c, Issue(c, e, lba, pba, key, d), None)
  {
    var e0 := e.(ok := e.ok && Unseen(e.ix, lba, pba));
    SameTree(c, e, e0, None);
    PutTree(c, e0, lba, Some(Record(pba, key)));
    SameTree(c, PutRecord(c, e0, lba, Some(Record(pba, key))), Issue(c, e, lba, pba, key, d), None);
    hide TreeInv, PutRecord, Unseen;
  }

  lemma {:induction false} ReleaseAllTree(c: Config, e: Engine, att: seq<Entry>)
    requires c.Valid() && TreeInv(c, e, None)
    ensures TreeInv(c, ReleaseAll(c, e, att), None)
  {
    hide TreeInv, Release;
    if att != [] {
      var n := |att| - 1;
      ReleaseAllTree(c, e, att[..n]);
      ReleaseTree(c, ReleaseAll(c, e, att[..n]), att[n].key, att[n].rec.pba);
    }
  }

  // ---------------------------------------------------------------- taking space

  /// A segment with a clear bit has no valid block and no node.
  lemma {:induction false} AllocTree(c: Config, e: Engine, seg: nat)
    requires c.Valid() && TreeInv(c, e, None) && seg < c.nseg && !e.svt[seg]
    ensures e.used[seg] == {}
    ensures TreeInv(c, AllocSegment(c, e, seg), None)
  {
    var es, x := EntriesOf(e.used), EntryOf(Below(c.bps));
    EntryChange(e.used, seg, Below(c.bps));
    SetSome(e.used[seg]);
    assert es[seg].nr == 0;
    DropAgrees(es, e.tree, e.logging, None, c.bps, seg, x);
    RemoveKeeps(e.tree, seg);
    CountSet(e.svt, seg, true);
    hide Agree, Remove, Below;
  }

  lemma {:induction false} LeaveFullTree(c: Config, e: Engine)
    requires c.Valid() && TreeInv(c, e, None)
    ensures TreeInv(c, LeaveFull(c, e), None)
    ensures var e0 := LeaveFull(c, e); e0.logging.Some? ==> e0.logging.value < c.nseg && |e0.used[e0.logging.value]| < c.bps
  {
    var es := EntriesOf(e.used);
    if e.logging.Some? && |e.used[e.logging.value]| >= c.bps {
      StopLogging(es, e.tree, c.bps, e.logging.value);
      RemoveKeeps(e.tree, e.logging.value);
      hide Agree, Remove;
      TiedLess(e.svt, Count(e.svt), es, e.tree, e.logging, Remove(e.tree, e.logging.value));
    }
  }

  /// Whichever segment is chosen, its bit is set afterwards.
  lemma {:induction false} ChooseTree(c: Config, e: Engine, seg: nat)
    requires c.Valid() && TreeInv(c, e, None) && seg < c.nseg
    requires e.logging.Some? ==> e.logging.value == seg
    requires e.logging.None? && e.tree != [] ==> e.tree[|e.tree|-1].segno == seg
    requires e.logging.None? && e.tree == [] ==> !e.svt[seg]
    ensures var e1 := ChooseLogging(e, seg);
      TreeInv(c, e1, None) && e1.logging == Some(seg) && e1.svt[seg] && e1.used == e.used
  {
    var es := EntriesOf(e.used);
    if e.logging.None? {
      StartLogging(es, e.tree, c.bps, seg);
      RemoveKeeps(e.tree, seg);
      if e.tree == [] {
        CountSet(e.svt, seg, true);
      } else {
        assert e.tree[|e.tree|-1] in e.tree;
      }
      hide Agree, Remove;
    }
  }

  /// One more block of the logging segment does not touch the tree.
  lemma {:induction false} LoggedTree(c: Config, e: Engine, s: nat, off: nat)
    requires c.Valid() && TreeInv(c, e, None) && s < |e.used| && e.logging == Some(s) && off < c.bps && off !in e.used[s]
    ensures TreeInv(c, e.(used := e.used[s := e.used[s] + {off}]), None)
  {
    var bits := e.used[s] + {off};
    var es := EntriesOf(e.used);
    EntryChange(e.used, s, bits);
    assert es[s] == EntryOf(e.used[s]);
    EntrySound(es, c.bps, e.tree, s);
    assert EntryOk(EntryOf(bits), c.bps);
    LogAgrees(es, e.tree, c.bps, s, EntryOf(bits));
    hide Agree;
    TiedLog(e.svt, Count(e.svt), es, e.tree, e.logging, es[s := EntryOf(bits)]);
  }

  lemma {:induction false} EntrySound(es: seq<SegEntry>, bps: nat, vs: seq<Victim>, s: nat)
    requires Agree(es, vs, Some(s), None, bps) && s < |es|
    ensures EntryOk(es[s], bps)
  {
  }

  lemma {:induction false} TakeIs(c: Config, e: Engine, pba: nat)
    requires c.Valid() && MayLog(c, e, pba) && SegOf(c, pba) < |e.used|
    ensures var e0, s := LeaveFull(c, e), SegOf(c, pba);
      && (e0.logging.Some? ==> e0.logging.value == s)
      && (e0.logging.None? && e0.tree != [] ==> e0.tree[|e0.tree|-1].segno == s)
      && (e0.logging.None? && e0.tree == [] ==> s < |e0.svt| && !e0.svt[s])
      && OffOf(c, pba) !in e.used[s] && e0.used == e.used
      && var e1 := ChooseLogging(e0, s);
         && e1 == e.(svt := e1.svt, tree := e1.tree, logging := e1.logging)
         && TakeBlockState(c, e, pba) == e1.(used := e.used[s := e.used[s] + {OffOf(c, pba)}])
         && (forall t :: 0 <= t < |e.svt| && e.svt[t] ==> t < |e1.svt| && e1.svt[t])
    ensures e.used[SegOf(c, pba) := e.used[SegOf(c, pba)] + {OffOf(c, pba)}] == SetBit(c, e.used, pba)
  {
    hide Remove;
  }

  lemma {:induction false} TreeSizes(c: Config, e: Engine, popped: Option<nat>)
    requires TreeInv(c, e, popped)
    ensures |e.used| == |e.svt| == c.nseg
  {
  }

  /// Taking a block for threaded logging.
  lemma {:induction false} TakeTree(c: Config, e: Engine, pba: nat)
    requires c.Valid() && TreeInv(c, e, None) && MayLog(c, e, pba) && pba < c.nseg * c.bps
    ensures var e1 := TakeBlockState(c, e, pba);
      && TreeInv(c, e1, None) && SegOf(c, pba) < c.nseg && SegOf(c, pba) < |e1.svt| && e1.svt[SegOf(c, pba)]
      && e1 == e.(svt := e1.svt, used := SetBit(c, e.used, pba), tree := e1.tree, logging := e1.logging)
      && |e1.svt| == |e.svt| && (forall s :: 0 <= s < |e.svt| && e.svt[s] ==> e1.svt[s])
  {
    hide *;
    var e0, s := LeaveFull(c, e), SegOf(c, pba);
    PbaBound(c, pba);
    TreeSizes(c, e, None);
    TakeIs(c, e, pba);
    LeaveFullTree(c, e);
    ChooseTree(c, e0, s);
    LoggedTree(c, ChooseLogging(e0, s), s, OffOf(c, pba));
    TreeSizes(c, ChooseLogging(e0, s), None);
  }

  // ---------------------------------------------------------------- flushing

  lemma {:induction false} FlushUpToTree(c: Config, e: Engine, order: seq<nat>, b: Buf, seg: nat, i: nat)
    requires c.Valid() && TreeInv(c, e, None) && seg < c.nseg && !e.svt[seg]
    requires i <= |order| && forall j :: 0 <= j < |order| ==> order[j] in b.blocks
    ensures TreeInv(c, FlushUpTo(c, e, order, b, seg, i), None)
  {
    hide TreeInv, Issue, AllocSegment;
    if i == 0 {
      AllocTree(c, e, seg);
    } else {
      FlushUpToTree(c, e, order, b, seg, i - 1);
      IssueTree(c, FlushUpTo(c, e, order, b, seg, i - 1), order[i-1], PbaOf(c, seg, i - 1), b.key, b.blocks[order[i-1]]);
    }
  }

  /// The answers of find_logging_block during one flush.
  ghost predicate Answers(c: Config, e: Engine, order: seq<nat>, b: Buf, wheres: seq<Option<nat>>)
    requires c.Valid() && |wheres| == |order|
    requires forall j :: 0 <= j < |order| ==> order[j] in b.blocks
  {
    forall i :: 0 <= i < |order| ==> Answer(c, LogUpTo(c, e, order, b, wheres, i), wheres[i])
  }

  ghost predicate Answer(c: Config, e: Engine, where: Option<nat>)
    requires c.Valid()
  {
    if where.Some? then MayLog(c, e, where.value) else NoSpace(c, e)
  }

  lemma {:induction false} InRange(c: Config, e: Engine, pba: nat)
    requires c.Valid() && MayLog(c, e, pba)
    ensures pba < c.nseg * c.bps && !UsedBit(c, e.used, pba)
  {
  }

  lemma {:induction false} LogBlockTree(c: Config, e: Engine, lba: nat, where: Option<nat>, key: nat, d: Data)
    requires c.Valid() && TreeInv(c, e, None) && Answer(c, e, where)
    ensures TreeInv(c, LogBlock(c, e, lba, where, key, d), None)
  {
    if where.None? {
      LeaveFullTree(c, e);
      SameTree(c, LeaveFull(c, e), LeaveFull(c, e).(ok := false), None);
    } else {
      InRange(c, e, where.value);
      TakeTree(c, e, where.value);
      IssueTree(c, TakeBlockState(c, e, where.value), lba, where.value, key, d);
    }
    hide TreeInv, Issue, TakeBlockState, LeaveFull, MayLog, NoSpace;
  }

  lemma {:induction false} LogUpToTree(c: Config, e: Engine, order: seq<nat>, b: Buf, wheres: seq<Option<nat>>, i: nat)
    requires c.Valid() && TreeInv(c, e, None) && i <= |order| == |wheres|
    requires forall j :: 0 <= j < |order| ==> order[j] in b.blocks
    requires Answers(c, e, order, b, wheres)
    ensures TreeInv(c, LogUpTo(c, e, order, b, wheres, i), None)
  {
    hide TreeInv, LogBlock, Answer;
    if i > 0 {
      LogUpToTree(c, e, order, b, wheres, i - 1);
      LogBlockTree(c, LogUpTo(c, e, order, b, wheres, i - 1), order[i-1], wheres[i-1], b.key, b.blocks[order[i-1]]);
    }
  }

  // ---------------------------------------------------------------- collection

  /// Nodes of the logging segment are all that is skipped.
  lemma {:induction false} SkipTree(c: Config, e: Engine)
    requires TreeInv(c, e, None)
    ensures TreeInv(c, e.(tree := Poppable(e.tree, e.logging)), None)
    ensures forall v :: v in Poppable(e.tree, e.logging) ==> v in e.tree
    decreases |e.tree|
  {
    if e.tree != [] && e.tree[0].nr > 0 && e.logging == Some(e.tree[0].segno) {
      var es, s := EntriesOf(e.used), e.tree[0].segno;
      PopAgrees(es, e.tree, e.logging, c.bps);
      RemoveKeeps(e.tree, s);
      var e1 := e.(tree := e.tree[1..]);
      assert Remove(e.tree, s) == e.tree[1..];
      assert Agree(es, e.tree[1..], e.logging, None, c.bps) by { hide EntriesOk, TreeOk, Exact; }
      hide Agree;
      SkipTree(c, e1);
    }
  }

  /// The popped node is out of the tree; if it is not the logging segment's, it is an exact copy.
  lemma {:induction false} PopTree(c: Config, e: Engine, seg: nat, bits: set<nat>)
    requires TreeInv(c, e, None) && Pops(e, seg, bits)
    ensures TreeInv(c, AfterPop(e), Some(seg)) && seg < c.nseg
    ensures e.logging != Some(seg) ==> bits == e.used[seg] && |bits| < c.bps
    ensures e.logging == Some(seg) ==> bits == {}
    ensures forall v :: v in AfterPop(e).tree ==> v.segno != seg
  {
    SkipTree(c, e);
    var t := Poppable(e.tree, e.logging);
    var es, e1 := EntriesOf(e.used), e.(tree := t);
    assert t[0] in t;
    PopAgrees(es, t, e.logging, c.bps);
    RemoveKeeps(t, seg);
    assert Remove(t, seg) == t[1..];
    FirstNode(e.tree, e.logging);
    SetSome(bits);
    assert TreeInv(c, AfterPop(e), Some(seg)) by { hide Poppable; }
  }

  /// A node of the logging segment is popped only when it says that the segment is empty.
  lemma {:induction false} FirstNode(tree: seq<Victim>, logging: Option<nat>)
    ensures var t := Poppable(tree, logging); t != [] && logging == Some(t[0].segno) ==> t[0].nr == 0
  {
    if tree != [] && tree[0].nr > 0 && logging == Some(tree[0].segno) { FirstNode(tree[1..], logging); }
  }

  /// A collection changes none of the four structures before the segment is handed back.
  lemma {:induction false} GcUpToSpace(c: Config, e: Engine, seg: nat, bits: set<nat>, newKey: nat, o: nat)
    requires c.Valid() && |e.pool.bufs| >= 1
    ensures var e1 := GcUpTo(c, e, seg, bits, newKey, o);
      e1.used == e.used && e1.svt == e.svt && e1.tree == e.tree && e1.logging == e.logging
  {
    hide GcBlock;
    if o > 0 {
      GcUpToSpace(c, e, seg, bits, newKey, o - 1);
      GcBlockSpace(c, GcUpTo(c, e, seg, bits, newKey, o - 1), PbaOf(c, seg, o - 1), newKey);
    }
  }

  lemma {:induction false} GcBlockSpace(c: Config, e: Engine, pba: nat, newKey: nat)
    requires c.Valid() && |e.pool.bufs| >= 1
    ensures var e1 := GcBlock(c, e, pba, newKey);
      e1.used == e.used && e1.svt == e.svt && e1.tree == e.tree && e1.logging == e.logging
  {
    hide Lookup, Put, Rotates, PushPool, RoomToRotate, Query, Unflushed;
  }

  /// Handing a popped segment back keeps the agreement exactly when it is not the logging segment:
  /// otherwise the logging segment is left without its bit.
  lemma {:induction false} ReturnTreeIff(c: Config, e: Engine, seg: nat)
    requires c.Valid() && TreeInv(c, e, Some(seg)) && seg < c.nseg
    ensures TreeInv(c, ReturnSegment(e, seg), None) <==> e.logging != Some(seg)
  {
    hide *;
    var es := EntriesOf(e.used);
    TreeParts(c, e, Some(seg));
    EntryChange(e.used, seg, {});
    EmptyEntry(c.bps);
    DropAgrees(es, e.tree, e.logging, Some(seg), c.bps, seg, EntryOf({}));
    RemoveOut(c, e, es, seg);
    if e.logging != Some(seg) {
      NotUsed(e, seg);
      HandedBack(c, e, es, seg, Remove(e.tree, seg));
    } else {
      LoggingCleared(c, e, seg);
    }
  }

  lemma {:induction false} TreeParts(c: Config, e: Engine, popped: Option<nat>)
    ensures TreeInv(c, e, popped) <==>
      && |e.used| == |e.svt| == c.nseg
      && Agree(EntriesOf(e.used), e.tree, e.logging, popped, c.bps)
      && Tied(e.svt, Count(e.svt), EntriesOf(e.used), e.tree, e.logging)
  {
  }

  lemma {:induction false} EmptyEntry(bps: nat)
    ensures EntryOk(EntryOf({}), bps) && EntryOf({}).nr == 0 && EntryOf({}) == SegEntry(0, {})
  {
  }

  lemma {:induction false} RemoveOut(c: Config, e: Engine, es: seq<SegEntry>, seg: nat)
    requires Agree(es, e.tree, e.logging, Some(seg), c.bps)
    ensures forall w :: w in Remove(e.tree, seg) <==> w in e.tree && w.segno != seg
  {
    RemoveKeeps(e.tree, seg);
  }

  lemma {:induction false} NotUsed(e: Engine, seg: nat)
    requires seg < |e.used| && seg < |e.svt|
    ensures ReturnSegment(e, seg) == e.(used := e.used[seg := {}], tree := Remove(e.tree, seg), svt := e.svt[seg := false])
  {
    hide Remove;
  }

  lemma {:induction false} HandedBack(c: Config, e: Engine, es: seq<SegEntry>, seg: nat, vs': seq<Victim>)
    requires |e.used| == |e.svt| == c.nseg && seg < c.nseg && es == EntriesOf(e.used) && vs' == Remove(e.tree, seg)
    requires Tied(e.svt, Count(e.svt), es, e.tree, e.logging) && e.logging != Some(seg)
    requires Agree(es[seg := SegEntry(0, {})], vs', e.logging, None, c.bps)
    requires forall w :: w in vs' <==> w in e.tree && w.segno != seg
    ensures TreeInv(c, ReturnSegment(e, seg), None)
  {
    EntryChange(e.used, seg, {});
    CountSet(e.svt, seg, false);
    hide Agree, Remove;
  }

  lemma {:induction false} LoggingCleared(c: Config, e: Engine, seg: nat)
    requires seg < |e.svt| == |e.used| && e.logging == Some(seg)
    ensures !TreeInv(c, ReturnSegment(e, seg), None)
  {
    hide Agree, Remove;
  }

  // ---------------------------------------------------------------- formatting

  lemma {:induction false} NothingUsed(c: Config, e: Engine)
    requires c.Valid() && e.used == seq(c.nseg, i => {}) && e.svt == seq(c.nseg, i => false) && e.tree == [] && e.logging.None?
    ensures TreeInv(c, e, None)
  {
    assert forall s :: 0 <= s < c.nseg ==> EntriesOf(e.used)[s] == SegEntry(0, {});
  }
}
