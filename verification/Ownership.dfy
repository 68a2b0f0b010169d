/** Who owns a block, at every level of the index and in every run.

`Held` speaks of every record that any level of the index still stores, live or not: its block bit is
set and the reverse index names its block number, unless some collection has freed the address.  No guard
is needed for that.  So the monitor's "reissued address" can only be an address that a collection freed,
and a run without collections needs no guard but room. */
module Ownership {
  import opened Common
  import opened Index
  import opened Engine
  import opened EngineProofs
  import opened EngineTree
  import opened EngineRuns

  // ---------------------------------------------------------------- the invariant

  /// Every stored record owns its block, unless its address was freed.
  ghost predicate Backed(c: Config, e: Engine, freed: set<nat>)
    requires c.Valid()
  {
    forall k, p {:trigger Unseen(e.ix, k, p)} :: p !in freed && !Unseen(e.ix, k, p) ==> Owns(c, e, k, p)
  }

  /// Two levels never store one key at one address, unless the address was freed.
  ghost predicate Once(l: Layers, freed: set<nat>) {
    forall i, j, k {:trigger Val(Levels(l)[i], k), Val(Levels(l)[j], k)} ::
      0 <= i < j < 4 && Val(Levels(l)[i], k).Some? && Val(Levels(l)[j], k).Some? && Val(Levels(l)[i], k).value.pba !in freed
      ==> Val(Levels(l)[i], k).value.pba != Val(Levels(l)[j], k).value.pba
  }

  ghost predicate Held(c: Config, e: Engine, freed: set<nat>)
    requires c.Valid()
  {
    && |e.used| == c.nseg && |e.rit| == c.nseg * c.bps
    && Backed(c, e, freed) && Once(e.ix, freed)
  }

  /// Reserved, and stored by no record of any level.
  ghost predicate Spare(c: Config, e: Engine, freed: set<nat>, p: nat)
    requires c.Valid()
  {
    p in freed || (p < |e.rit| && UsedBit(c, e.used, p) && forall k :: Unseen(e.ix, k, p))
  }

  // ---------------------------------------------------------------- what the index stores

  /// The level of the old index that a level of the new one comes from.
  lemma {:induction false} PutLevels(l: Layers, cap: nat, k: nat, v: Option<Record>)
    ensures var l', mem := Put(l, cap, k, v), l.mem[k := PutCell(l.mem, k, v)];
      && (Rotates(l, cap, k, v) ==> Levels(l')[0] == map[] && Levels(l')[1] == mem)
      && (!Rotates(l, cap, k, v) ==> Levels(l')[0] == mem && Levels(l')[1] == Levels(l)[1])
      && Levels(l')[2] == Levels(l)[2] && Levels(l')[3] == Levels(l)[3]
    ensures Levels(l)[0] == l.mem
  {
  }

  lemma {:induction false} PutVal(t: Table, k: nat, v: Option<Record>, j: nat)
    ensures Val(t[k := PutCell(t, k, v)], j) == if j == k then v else Val(t, j)
  {
  }

  lemma {:induction false} AtLevel(l: Layers, k: nat, p: nat) returns (i: nat)
    requires !Unseen(l, k, p)
    ensures i < 4 && Val(Levels(l)[i], k).Some? && Val(Levels(l)[i], k).value.pba == p
  {
    i :| 0 <= i < 4 && var v := Val(Levels(l)[i], k); v.Some? && v.value.pba == p;
  }

  lemma {:induction false} SeenAt(l: Layers, k: nat, p: nat, i: nat)
    requires i < 4 && Val(Levels(l)[i], k).Some? && Val(Levels(l)[i], k).value.pba == p
    ensures !Unseen(l, k, p)
  {
  }

  /// A put stores nothing but its own record.
  lemma {:induction false} PutStored(l: Layers, cap: nat, k: nat, v: Option<Record>, j: nat, p: nat)
    requires !Unseen(Put(l, cap, k, v), j, p)
    ensures !Unseen(l, j, p) || (v.Some? && j == k && p == v.value.pba)
  {
    PutLevels(l, cap, k, v);
    PutVal(l.mem, k, v, j);
    var i := AtLevel(Put(l, cap, k, v), j, p);
    hide Unseen, Put, PutCell;
    var i0 := if i == 1 && Rotates(l, cap, k, v) then 0 else i;
    if !(v.Some? && j == k && p == v.value.pba) { SeenAt(l, j, p, i0); }
  }

  lemma {:induction false} PutOnce(l: Layers, cap: nat, k: nat, v: Option<Record>, freed: set<nat>)
    requires Once(l, freed) && (v.Some? ==> v.value.pba in freed || Unseen(l, k, v.value.pba))
    ensures Once(Put(l, cap, k, v), freed)
  {
    PutLevels(l, cap, k, v);
    var l' := Put(l, cap, k, v);
    hide Put, PutCell;
    forall i, j, q | 0 <= i < j < 4 && Val(Levels(l')[i], q).Some? && Val(Levels(l')[j], q).Some?
        && Val(Levels(l')[i], q).value.pba !in freed
      ensures Val(Levels(l')[i], q).value.pba != Val(Levels(l')[j], q).value.pba
    {
      var i0 := if i == 1 && Rotates(l, cap, k, v) then 0 else i;
      PutVal(l.mem, k, v, q);
      assert Levels(l')[j] == Levels(l)[j];
      if i0 == 0 && q == k {
        var w := Val(Levels(l)[j], k);
        assert w.Some? && w.value.pba != v.value.pba;
      } else {
        assert Val(Levels(l)[i0], q) == Val(Levels(l')[i], q) && Val(Levels(l)[j], q) == Val(Levels(l')[j], q);
      }
    }
  }

  /// The record that a put replaces is gone from every level.
  lemma {:induction false} PutGone(l: Layers, cap: nat, k: nat, v: Record, p: nat, freed: set<nat>)
    requires Once(l, freed) && Val(l.mem, k).Some? && Val(l.mem, k).value.pba == p && p !in freed && v.pba != p
    ensures Unseen(Put(l, cap, k, Some(v)), k, p)
  {
    var l' := Put(l, cap, k, Some(v));
    PutLevels(l, cap, k, Some(v));
    PutVal(l.mem, k, Some(v), k);
    forall i | 0 <= i < 4 ensures var r := Val(Levels(l')[i], k); r.Some? ==> r.value.pba != p {
      if i >= 1 && Levels(l')[i] == Levels(l)[i] {
        assert Val(Levels(l)[i], k).Some? ==> Val(Levels(l)[i], k).value.pba != p;
      }
    }
    hide Put, PutCell, Levels;
  }

  // ---------------------------------------------------------------- release

  lemma {:induction false} ReleaseOwns(c: Config, e: Engine, lba: nat, pba: nat, k: nat, p: nat)
    requires c.Valid() && Owns(c, e, k, p) && (k != lba || p != pba)
    ensures Owns(c, Release(c, e, lba, pba), k, p)
  {
    SamePba(c, p, pba);
    hide ReturnTree;
  }

  lemma {:induction false} ReleaseBit(c: Config, e: Engine, lba: nat, pba: nat, p: nat)
    requires c.Valid() && UsedBit(c, e.used, p) && p != pba
    ensures UsedBit(c, Release(c, e, lba, pba).used, p)
  {
    SamePba(c, p, pba);
    hide ReturnTree;
  }

  lemma {:induction false} ReleaseSizes(c: Config, e: Engine, lba: nat, pba: nat)
    requires c.Valid()
    ensures var e1 := Release(c, e, lba, pba);
      |e1.used| == |e.used| && |e1.rit| == |e.rit| && e1.ix == e.ix && e1.ok == e.ok && e1.pool == e.pool
  {
    hide ReturnTree;
  }

  // ---------------------------------------------------------------- issuing a block

  /// What an issue does to the parts that `Held` looks at.
  lemma {:induction false} IssueParts(c: Config, e: Engine, lba: nat, pba: nat, key: nat, d: Data)
    requires c.Valid()
    ensures var e0, e1, prev := e.(ix := Put(e.ix, c.cap, lba, Some(Record(pba, key)))), Issue(c, e, lba, pba, key, d), Val(e.ix.mem, lba);
      var e2 := if prev.Some? then Release(c, e0, lba, prev.value.pba) else e0;
      && e1.ix == e0.ix && e1.used == e2.used && e1.rit == (if pba < |e2.rit| then e2.rit[pba := lba] else e2.rit)
      && e1.pool == e.pool
      && (e1.ok <==> e.ok && Unseen(e.ix, lba, pba) && (Rotates(e.ix, c.cap, lba, Some(Record(pba, key))) ==> !e.ix.immPending))
  {
    hide Put, Rotates, Unseen, ClearBit, ReturnTree;
  }

  /// A spare address may be given out, and it is the only one that stops being spare.
  lemma {:induction false} IssueHeld(c: Config, e: Engine, freed: set<nat>, lba: nat, pba: nat, key: nat, d: Data)
    requires c.Valid() && Held(c, e, freed) && Spare(c, e, freed, pba)
    ensures Held(c, Issue(c, e, lba, pba, key, d), freed)
    ensures forall q :: q != pba && Spare(c, e, freed, q) ==> Spare(c, Issue(c, e, lba, pba, key, d), freed, q)
  {
    var v, e1, prev := Record(pba, key), Issue(c, e, lba, pba, key, d), Val(e.ix.mem, lba);
    IssueParts(c, e, lba, pba, key, d);
    PutOnce(e.ix, c.cap, lba, Some(v), freed);
    var e0 := e.(ix := Put(e.ix, c.cap, lba, Some(v)));
    if prev.Some? { ReleaseSizes(c, e0, lba, prev.value.pba); }
    forall k, p | p !in freed && !Unseen(e1.ix, k, p) ensures Owns(c, e1, k, p) {
      IssueOwns(c, e, freed, lba, pba, key, d, k, p);
    }
    forall q | q != pba && Spare(c, e, freed, q) ensures Spare(c, e1, freed, q) {
      IssueSpare(c, e, freed, lba, pba, key, d, q);
    }
    hide Unseen, Issue, Put, Release, Once, Owns;
  }

  lemma {:induction false} IssueOwns(c: Config, e: Engine, freed: set<nat>, lba: nat, pba: nat, key: nat, d: Data, k: nat, p: nat)
    requires c.Valid() && Held(c, e, freed) && Spare(c, e, freed, pba)
    requires p !in freed && !Unseen(Issue(c, e, lba, pba, key, d).ix, k, p)
    ensures Owns(c, Issue(c, e, lba, pba, key, d), k, p)
  {
    var v, e1, prev := Record(pba, key), Issue(c, e, lba, pba, key, d), Val(e.ix.mem, lba);
    IssueParts(c, e, lba, pba, key, d);
    PutStored(e.ix, c.cap, lba, Some(v), k, p);
    var e0 := e.(ix := Put(e.ix, c.cap, lba, Some(v)));
    hide Unseen, Issue, Put, Release, Once;
    if prev.Some? {
      var was := prev.value.pba;
      ReleaseSizes(c, e0, lba, was);
      if p == pba {
        WasStored(e.ix, lba);
        ReleaseBit(c, e0, lba, was, p);
      } else {
        assert Owns(c, e0, k, p);
        if k == lba && p == was { PutGone(e.ix, c.cap, lba, v, p, freed); }
        ReleaseOwns(c, e0, lba, was, k, p);
      }
    }
  }

  lemma {:induction false} WasStored(l: Layers, k: nat)
    requires Val(l.mem, k).Some?
    ensures !Unseen(l, k, Val(l.mem, k).value.pba)
  {
    assert Levels(l)[0] == l.mem;
  }

  lemma {:induction false} IssueSpare(c: Config, e: Engine, freed: set<nat>, lba: nat, pba: nat, key: nat, d: Data, q: nat)
    requires c.Valid() && Held(c, e, freed) && q != pba && Spare(c, e, freed, q)
    ensures Spare(c, Issue(c, e, lba, pba, key, d), freed, q)
  {
    var v, e1, prev := Record(pba, key), Issue(c, e, lba, pba, key, d), Val(e.ix.mem, lba);
    IssueParts(c, e, lba, pba, key, d);
    var e0 := e.(ix := Put(e.ix, c.cap, lba, Some(v)));
    if q !in freed {
      forall k ensures Unseen(e1.ix, k, q) {
        if !Unseen(e1.ix, k, q) { PutStored(e.ix, c.cap, lba, Some(v), k, q); }
      }
      hide Unseen, Issue, Put, Release, Once;
      if prev.Some? {
        ReleaseSizes(c, e0, lba, prev.value.pba);
        WasStored(e.ix, lba);
        ReleaseBit(c, e0, lba, prev.value.pba, q);
      }
    }
  }

  /// The monitor drops only for want of room, or at an address that was freed.
  lemma {:induction false} IssueFlag(c: Config, e: Engine, freed: set<nat>, lba: nat, pba: nat, key: nat, d: Data)
    requires c.Valid() && Held(c, e, freed) && Spare(c, e, freed, pba)
    requires Rotates(e.ix, c.cap, lba, Some(Record(pba, key))) ==> !e.ix.immPending
    ensures Issue(c, e, lba, pba, key, d).ok || !e.ok || (pba in freed && !Unseen(e.ix, lba, pba))
  {
    IssueParts(c, e, lba, pba, key, d);
    hide Unseen, Issue, Put, Rotates, Release;
  }

  // ---------------------------------------------------------------- flushing

  /// An address whose bit is clear is stored by no record, unless it was freed.
  lemma {:induction false} ClearIsUnseen(c: Config, e: Engine, freed: set<nat>, p: nat)
    requires c.Valid() && Held(c, e, freed) && !UsedBit(c, e.used, p) && p !in freed
    ensures forall k :: Unseen(e.ix, k, p)
  {
    forall k ensures Unseen(e.ix, k, p) {
      assert !Unseen(e.ix, k, p) ==> Owns(c, e, k, p);
    }
  }

  /// Only bits are set, none is cleared.
  lemma {:induction false} MoreBits(c: Config, e: Engine, e1: Engine, freed: set<nat>)
    requires c.Valid() && Held(c, e, freed) && e1.ix == e.ix && e1.rit == e.rit && |e1.used| == |e.used|
    requires forall s :: 0 <= s < |e.used| ==> e.used[s] <= e1.used[s]
    ensures Held(c, e1, freed)
  {
    forall k, p | p !in freed && !Unseen(e1.ix, k, p) ensures Owns(c, e1, k, p) {
      assert Owns(c, e, k, p);
    }
  }

  /// All of a freshly allocated segment is spare.
  lemma {:induction false} AllocHeld(c: Config, e: Engine, freed: set<nat>, seg: nat)
    requires c.Valid() && Held(c, e, freed) && seg < |e.svt| && seg < c.nseg && e.used[seg] == {}
    ensures Held(c, AllocSegment(c, e, seg), freed)
    ensures forall o: nat :: o < c.bps ==> Spare(c, AllocSegment(c, e, seg), freed, PbaOf(c, seg, o))
  {
    var e1 := AllocSegment(c, e, seg);
    MoreBits(c, e, e1, freed);
    forall o: nat | o < c.bps ensures Spare(c, e1, freed, PbaOf(c, seg, o)) {
      var p := PbaOf(c, seg, o);
      DivMod(c.bps, seg, o);
      PbaBound(c, p);
      if p !in freed { ClearIsUnseen(c, e, freed, p); }
    }
  }

  lemma {:induction false} FlushUpToHeld(c: Config, e: Engine, freed: set<nat>, order: seq<nat>, b: Buf, seg: nat, i: nat)
    requires c.Valid() && Held(c, e, freed) && seg < |e.svt| && seg < c.nseg && e.used[seg] == {}
    requires i <= |order| <= c.bps && forall j :: 0 <= j < |order| ==> order[j] in b.blocks
    ensures Held(c, FlushUpTo(c, e, order, b, seg, i), freed)
    ensures forall o: nat :: i <= o < c.bps ==> Spare(c, FlushUpTo(c, e, order, b, seg, i), freed, PbaOf(c, seg, o))
  {
    hide Held, Spare, Issue, AllocSegment;
    if i == 0 {
      AllocHeld(c, e, freed, seg);
    } else {
      FlushUpToHeld(c, e, freed, order, b, seg, i - 1);
      var e0 := FlushUpTo(c, e, order, b, seg, i - 1);
      IssueHeld(c, e0, freed, order[i-1], PbaOf(c, seg, i - 1), b.key, b.blocks[order[i-1]]);
      forall o: nat | i <= o < c.bps ensures Spare(c, FlushUpTo(c, e, order, b, seg, i), freed, PbaOf(c, seg, o)) {
        assert Spare(c, e0, freed, PbaOf(c, seg, o));
      }
    }
  }

  /// A block that find_logging_block hands out is spare.
  lemma {:induction false} TakeHeld(c: Config, e: Engine, freed: set<nat>, pba: nat)
    requires c.Valid() && Held(c, e, freed) && MayLog(c, e, pba)
    ensures Held(c, TakeBlockState(c, e, pba), freed) && Spare(c, TakeBlockState(c, e, pba), freed, pba)
  {
    InRange(c, e, pba);
    PbaBound(c, pba);
    TakeIs(c, e, pba);
    var e1 := TakeBlockState(c, e, pba);
    hide MayLog, TakeBlockState, LeaveFull, ChooseLogging;
    MoreBits(c, e, e1, freed);
    if pba !in freed { ClearIsUnseen(c, e, freed, pba); }
  }

  lemma {:induction false} LogBlockHeld(c: Config, e: Engine, freed: set<nat>, lba: nat, where: Option<nat>, key: nat, d: Data)
    requires c.Valid() && Held(c, e, freed) && Answer(c, e, where)
    ensures Held(c, LogBlock(c, e, lba, where, key, d), freed)
  {
    if where.None? {
      MoreBits(c, e, LeaveFull(c, e).(ok := false), freed);
    } else {
      TakeHeld(c, e, freed, where.value);
      IssueHeld(c, TakeBlockState(c, e, where.value), freed, lba, where.value, key, d);
    }
    hide Held, Spare, Issue, TakeBlockState, MayLog, NoSpace;
  }

  lemma {:induction false} LogUpToHeld(c: Config, e: Engine, freed: set<nat>, order: seq<nat>, b: Buf, wheres: seq<Option<nat>>, i: nat)
    requires c.Valid() && Held(c, e, freed) && i <= |order| == |wheres|
    requires forall j :: 0 <= j < |order| ==> order[j] in b.blocks
    requires Answers(c, e, order, b, wheres)
    ensures Held(c, LogUpTo(c, e, order, b, wheres, i), freed)
  {
    hide Held, LogBlock, Answer;
    if i > 0 {
      LogUpToHeld(c, e, freed, order, b, wheres, i - 1);
      LogBlockHeld(c, LogUpTo(c, e, order, b, wheres, i - 1), freed, order[i-1], wheres[i-1], b.key, b.blocks[order[i-1]]);
    }
  }

  // ---------------------------------------------------------------- collection

  /// What one collected block changes: records go, a freed address is forgotten.
  lemma {:induction false} GcBlockHeld(c: Config, e: Engine, freed: set<nat>, pba: nat, newKey: nat)
    requires c.Valid() && Held(c, e, freed) && |e.pool.bufs| >= 1 && pba in freed
    ensures Held(c, GcBlock(c, e, pba, newKey), freed)
  {
    var e1 := GcBlock(c, e, pba, newKey);
    GcBlockParts(c, e, pba, newKey);
    var k0 := if pba < |e.rit| then KeyOf(e.rit[pba]) else 0;
    if e1.ix != e.ix { PutOnce(e.ix, c.cap, k0, None, freed); }
    forall k, p | p !in freed && !Unseen(e1.ix, k, p) ensures Owns(c, e1, k, p) {
      if e1.ix != e.ix { PutStored(e.ix, c.cap, k0, None, k, p); }
      assert Owns(c, e, k, p);
    }
    hide Unseen, GcBlock, Put, KeyOf, Once;
  }

  lemma {:induction false} GcBlockParts(c: Config, e: Engine, pba: nat, newKey: nat)
    requires c.Valid() && |e.pool.bufs| >= 1
    ensures var e1 := GcBlock(c, e, pba, newKey);
      && e1.used == e.used && e1.rit == (if pba < |e.rit| then e.rit[pba := INF_ADDR] else e.rit)
      && (e1.ix == e.ix || (pba < |e.rit| && e1.ix == Put(e.ix, c.cap, KeyOf(e.rit[pba]), None)))
  {
    hide Lookup, Put, Rotates, PushPool, RoomToRotate, Query, Unflushed, KeyOf;
  }

  lemma {:induction false} GcUpToHeld(c: Config, e: Engine, freed: set<nat>, seg: nat, bits: set<nat>, newKey: nat, o: nat)
    requires c.Valid() && Held(c, e, freed) && |e.pool.bufs| >= 1
    requires forall x: nat :: x < o && x in bits ==> PbaOf(c, seg, x) in freed
    ensures Held(c, GcUpTo(c, e, seg, bits, newKey, o), freed)
  {
    hide Held, GcBlock;
    if o > 0 {
      GcUpToHeld(c, e, freed, seg, bits, newKey, o - 1);
      if o - 1 in bits { GcBlockHeld(c, GcUpTo(c, e, seg, bits, newKey, o - 1), freed, PbaOf(c, seg, o - 1), newKey); }
    }
  }

  /// Every address of a segment.
  function Addresses(c: Config, seg: nat): (r: set<nat>)
    ensures forall o: nat :: o < c.bps ==> PbaOf(c, seg, o) in r
  {
    set o | o in Below(c.bps) :: PbaOf(c, seg, o)
  }

  lemma {:induction false} ReturnHeld(c: Config, e: Engine, freed: set<nat>, seg: nat)
    requires c.Valid() && Held(c, e, freed) && Addresses(c, seg) <= freed
    ensures Held(c, ReturnSegment(e, seg), freed)
  {
    var e1 := ReturnSegment(e, seg);
    forall k, p | p !in freed && !Unseen(e1.ix, k, p) ensures Owns(c, e1, k, p) {
      assert Owns(c, e, k, p);
      PbaBound(c, p);
      assert PbaOf(c, SegOf(c, p), OffOf(c, p)) == p;
    }
  }

  lemma {:induction false} MoreFreed(c: Config, e: Engine, freed: set<nat>, more: set<nat>)
    requires c.Valid() && Held(c, e, freed) && freed <= more
    ensures Held(c, e, more)
  {
  }

  lemma {:induction false} GcHeld(c: Config, e: Engine, freed: set<nat>, seg: nat, bits: set<nat>, newKey: nat)
    requires c.Valid() && Held(c, e, freed) && |e.pool.bufs| >= 1
    ensures Held(c, Gc(c, e, seg, bits, newKey), freed + Addresses(c, seg))
  {
    var e0, more := AfterPop(e).(ok := e.ok && e.logging != Some(seg)), freed + Addresses(c, seg);
    MoreFreed(c, e, freed, more);
    MoreBits(c, e, e0, more);
    GcUpToHeld(c, e0, more, seg, bits, newKey, c.bps);
    ReturnHeld(c, GcUpTo(c, e0, seg, bits, newKey, c.bps), more, seg);
    hide Held, GcUpTo, ReturnSegment, AfterPop, Addresses;
  }

  // ---------------------------------------------------------------- compaction

  /// The level of the old index that a level of the new one comes from, for one key.
  lemma {:induction false} MinorLevel(l: Layers, l1': Table, k: nat, i: nat) returns (i0: nat)
    requires l.immPending && (l.l0.Some? ==> MergedValues(l.l0.value, l.l1, l1')) && i < 4
    requires Val(Levels(Minor(l, l1'))[i], k).Some?
    ensures i0 < 4 && Val(Levels(l)[i0], k) == Val(Levels(Minor(l, l1'))[i], k)
    ensures i == 0 ==> i0 == 0
    ensures i == 2 ==> i0 == 1
    ensures i == 3 ==> i0 == if k in TableOf(l.l0) then 2 else 3
    ensures i != 1
  {
    var m := Minor(l, l1');
    if i == 3 {
      i0 := if k in TableOf(l.l0) then 2 else 3;
      if l.l0.Some? { assert Val(l1', k) == if k in l.l0.value then Val(l.l0.value, k) else Val(l.l1, k); }
    } else {
      i0 := if i == 2 then 1 else 0;
    }
  }

  lemma {:induction false} MinorStored(l: Layers, l1': Table, k: nat, p: nat)
    requires l.immPending && (l.l0.Some? ==> MergedValues(l.l0.value, l.l1, l1'))
    requires !Unseen(Minor(l, l1'), k, p)
    ensures !Unseen(l, k, p)
  {
    var i := AtLevel(Minor(l, l1'), k, p);
    var i0 := MinorLevel(l, l1', k, i);
    SeenAt(l, k, p, i0);
    hide Unseen, Minor, Levels, MergedValues;
  }

  lemma {:induction false} MinorOnce(l: Layers, l1': Table, freed: set<nat>)
    requires l.immPending && (l.l0.Some? ==> MergedValues(l.l0.value, l.l1, l1')) && Once(l, freed)
    ensures Once(Minor(l, l1'), freed)
  {
    var m := Minor(l, l1');
    forall i, j, k | 0 <= i < j < 4 && Val(Levels(m)[i], k).Some? && Val(Levels(m)[j], k).Some?
        && Val(Levels(m)[i], k).value.pba !in freed
      ensures Val(Levels(m)[i], k).value.pba != Val(Levels(m)[j], k).value.pba
    {
      var i0 := MinorLevel(l, l1', k, i);
      var j0 := MinorLevel(l, l1', k, j);
      assert i0 < j0;
    }
    hide Minor, Levels, MergedValues;
  }

  /// The old record of an overwritten key is gone after the compaction.
  lemma {:induction false} MinorGone(l: Layers, l1': Table, a: Entry, freed: set<nat>)
    requires l.immPending && (l.l0.Some? ==> MergedValues(l.l0.value, l.l1, l1')) && Once(l, freed)
    requires Attempt(TableOf(l.l0), l.l1, a) && a.rec.pba !in freed && a.rec.pba < INF_ADDR
    ensures Unseen(Minor(l, l1'), a.key, a.rec.pba)
  {
    var m, k, p := Minor(l, l1'), a.key, a.rec.pba;
    assert Levels(l)[3] == l.l1 && Val(l.l1, k) == Some(a.rec);
    forall i | 0 <= i < 4 ensures var r := Val(Levels(m)[i], k); r.Some? ==> r.value.pba != p {
      if Val(Levels(m)[i], k).Some? {
        var i0 := MinorLevel(l, l1', k, i);
        assert i0 < 3;
        assert Val(Levels(l)[i0], k).value.pba != p by { hide Minor, MergedValues; }
      }
    }
    hide Minor, MergedValues, Levels;
  }

  lemma {:induction false} ReleaseAllOwns(c: Config, e: Engine, att: seq<Entry>, k: nat, p: nat)
    requires c.Valid() && Owns(c, e, k, p) && forall a :: a in att ==> a.key != k || a.rec.pba != p
    ensures Owns(c, ReleaseAll(c, e, att), k, p)
  {
    hide Owns, Release;
    if att != [] {
      var n := |att| - 1;
      assert att[n] in att;
      ReleaseAllOwns(c, e, att[..n], k, p);
      ReleaseOwns(c, ReleaseAll(c, e, att[..n]), att[n].key, att[n].rec.pba, k, p);
    }
  }

  lemma {:induction false} ReleaseAllSizes(c: Config, e: Engine, att: seq<Entry>)
    requires c.Valid()
    ensures var e1 := ReleaseAll(c, e, att);
      |e1.used| == |e.used| && |e1.rit| == |e.rit| && e1.ix == e.ix && e1.ok == e.ok && e1.pool == e.pool
  {
    hide Release;
    if att != [] {
      var n := |att| - 1;
      ReleaseAllSizes(c, e, att[..n]);
      ReleaseSizes(c, ReleaseAll(c, e, att[..n]), att[n].key, att[n].rec.pba);
    }
  }

  lemma {:induction false} CompactHeld(c: Config, e: Engine, freed: set<nat>, l1': Table, att: seq<Entry>)
    requires c.Valid() && Held(c, e, freed) && e.ix.immPending && CompactionOk(e.ix, l1', att)
    ensures Held(c, Compact(c, e, l1', att), freed)
  {
    var e0, e1 := ReleaseAll(c, e, att), Compact(c, e, l1', att);
    ReleaseAllSizes(c, e, att);
    MinorOnce(e.ix, l1', freed);
    forall k, p | p !in freed && !Unseen(e1.ix, k, p) ensures Owns(c, e1, k, p) {
      MinorStored(e.ix, l1', k, p);
      assert Owns(c, e, k, p);
      forall a | a in att ensures a.key != k || a.rec.pba != p {
        if a.key == k && a.rec.pba == p { MinorGone(e.ix, l1', a, freed); }
      }
      ReleaseAllOwns(c, e, att, k, p);
    }
    hide Unseen, ReleaseAll, Minor, Once, MergedValues, Attempt, TableOk;
  }

  // ---------------------------------------------------------------- room

  /// The index can take `n` puts and still find no immutable memtable waiting when it rotates.
  predicate RoomFor(l: Layers, cap: nat, n: nat) {
    n <= cap && (l.immPending ==> l.size + n < cap)
  }

  lemma {:induction false} RoomPut(l: Layers, cap: nat, k: nat, v: Option<Record>, n: nat)
    requires cap >= 1 && n >= 1 && RoomFor(l, cap, n)
    ensures Rotates(l, cap, k, v) ==> !l.immPending
    ensures RoomFor(Put(l, cap, k, v), cap, n - 1)
  {
    assert CellWeight(PutCell(l.mem, k, v)) <= KeyWeight(l.mem, k) + 1;
    assert PutSize(l, k, v) <= l.size + 1;
  }

  lemma {:induction false} RoomNone(c: Config, l: Layers, k: nat, n: nat)
    requires c.Valid() && n >= 1 && RoomFor(l, c.cap, n)
    ensures Rotates(l, c.cap, k, None) ==> !l.immPending
    ensures RoomFor(Put(l, c.cap, k, None), c.cap, n - 1)
  {
    RoomPut(l, c.cap, k, None, n);
  }

  lemma {:induction false} RoomStep(c: Config, e: Engine, lba: nat, pba: nat, key: nat, d: Data, n: nat)
    requires c.Valid() && n >= 1 && RoomFor(e.ix, c.cap, n)
    ensures Rotates(e.ix, c.cap, lba, Some(Record(pba, key))) ==> !e.ix.immPending
    ensures RoomFor(Issue(c, e, lba, pba, key, d).ix, c.cap, n - 1)
  {
    RoomPut(e.ix, c.cap, lba, Some(Record(pba, key)), n);
    hide Put, Rotates, RoomFor, Unseen, Replaced;
  }

  lemma {:induction false} LogBlockIs(c: Config, e: Engine, lba: nat, r: Option<nat>, key: nat, d: Data)
    requires c.Valid()
    ensures LogBlock(c, e, lba, r, key, d) ==
      if r.None? then LeaveFull(c, e).(ok := false) else Issue(c, TakeBlockState(c, e, r.value), lba, r.value, key, d)
    ensures r.Some? ==> TakeBlockState(c, e, r.value).ix == e.ix && TakeBlockState(c, e, r.value).pool == e.pool
    ensures LeaveFull(c, e).ix == e.ix && LeaveFull(c, e).pool == e.pool
    ensures c.nseg * c.bps <= INF_ADDR
  {
    hide Issue;
  }

  lemma {:induction false} RoomLess(l: Layers, cap: nat, n: nat)
    requires n >= 1 && RoomFor(l, cap, n)
    ensures RoomFor(l, cap, n - 1) && RoomFor(l, cap, 1)
  {
  }

  lemma {:induction false} RoomLogged(c: Config, e: Engine, lba: nat, r: Option<nat>, key: nat, d: Data, n: nat)
    requires c.Valid() && n >= 1 && RoomFor(e.ix, c.cap, n)
    ensures RoomFor(LogBlock(c, e, lba, r, key, d).ix, c.cap, n - 1)
  {
    LogBlockIs(c, e, lba, r, key, d);
    RoomLess(e.ix, c.cap, n);
    if r.Some? { RoomStep(c, TakeBlockState(c, e, r.value), lba, r.value, key, d, n); }
    hide LogBlock, Issue, RoomFor, TakeBlockState;
  }

  lemma {:induction false} FlushPool(c: Config, e: Engine, order: seq<nat>, b: Buf, seg: nat, i: nat)
    requires c.Valid() && i <= |order| && forall j :: 0 <= j < |order| ==> order[j] in b.blocks
    ensures FlushUpTo(c, e, order, b, seg, i).pool == e.pool
  {
    if i > 0 {
      IssueMonitor(c, FlushUpTo(c, e, order, b, seg, i - 1), order[i-1], PbaOf(c, seg, i - 1), b.key, b.blocks[order[i-1]]);
      FlushPool(c, e, order, b, seg, i - 1);
    }
  }

  lemma {:induction false} LogPool(c: Config, e: Engine, order: seq<nat>, b: Buf, ws: seq<Option<nat>>, i: nat)
    requires c.Valid() && i <= |order| == |ws| && forall j :: 0 <= j < |order| ==> order[j] in b.blocks
    ensures LogUpTo(c, e, order, b, ws, i).pool == e.pool
  {
    if i > 0 {
      var s := LogUpTo(c, e, order, b, ws, i - 1);
      LogBlockIs(c, s, order[i-1], ws[i-1], b.key, b.blocks[order[i-1]]);
      if ws[i-1].Some? {
        IssueMonitor(c, TakeBlockState(c, s, ws[i-1].value), order[i-1], ws[i-1].value, b.key, b.blocks[order[i-1]]);
      }
      LogPool(c, e, order, b, ws, i - 1);
    }
  }

  // ---------------------------------------------------------------- the pool

  /// No buffer has more blocks than a segment, and the current one is not full.
  ghost predicate Fits(bps: nat, bufs: seq<Buf>) {
    |bufs| >= 1 && |bufs[0].blocks| < bps && forall a :: 0 <= a < |bufs| ==> |bufs[a].blocks| <= bps
  }

  lemma {:induction false} FillOne(m: map<nat, Data>, k: nat, d: Data)
    ensures |m| <= |m[k := d]| <= |m| + 1
  {
    var m' := m[k := d];
    assert m'.Keys == m.Keys + {k};
    assert |m'| == |m'.Keys| && |m| == |m.Keys|;
  }

  lemma {:induction false} PushFits(c: Config, p: Pool, lba: nat, d: Data, newKey: nat)
    requires c.Valid() && Fits(c.bps, p.bufs)
    ensures Fits(c.bps, PushPool(c.bps, p, lba, d, newKey).bufs)
  {
    FillOne(p.bufs[0].blocks, lba, d);
  }

  lemma {:induction false} GcUpToFits(c: Config, e: Engine, seg: nat, bits: set<nat>, newKey: nat, o: nat)
    requires c.Valid() && Fits(c.bps, e.pool.bufs)
    ensures Fits(c.bps, GcUpTo(c, e, seg, bits, newKey, o).pool.bufs)
  {
    hide Fits, GcBlock;
    FitsSome(c.bps, e.pool.bufs);
    if o > 0 {
      GcUpToFits(c, e, seg, bits, newKey, o - 1);
      var e0 := GcUpTo(c, e, seg, bits, newKey, o - 1);
      if o - 1 in bits { GcBlockFits(c, e0, PbaOf(c, seg, o - 1), newKey); }
    }
  }

  lemma {:induction false} FitsSome(bps: nat, bufs: seq<Buf>)
    requires Fits(bps, bufs)
    ensures |bufs| >= 1
  {
  }

  lemma {:induction false} GcBlockFits(c: Config, e: Engine, pba: nat, newKey: nat)
    requires c.Valid() && |e.pool.bufs| >= 1 && Fits(c.bps, e.pool.bufs)
    ensures Fits(c.bps, GcBlock(c, e, pba, newKey).pool.bufs)
  {
    hide Fits, PushPool, Lookup, Query, Unflushed, RoomToRotate, Put, Rotates;
    if pba < |e.rit| && pba in e.disk { PushFits(c, e.pool, e.rit[pba], e.disk[pba].plain, newKey); }
  }

  // ---------------------------------------------------------------- steps

  /// What one step frees besides the blocks whose records it replaces.
  function FreedBy(c: Config, s: Step): set<nat> {
    if s.Collect? then Addresses(c, s.seg) else {}
  }

  function FreedAfter(c: Config, steps: seq<Step>): set<nat> {
    if steps == [] then {} else FreedAfter(c, steps[..|steps|-1]) + FreedBy(c, steps[|steps|-1])
  }

  lemma {:induction false} BufferFits(c: Config, e: Engine, order: seq<nat>)
    requires Fits(c.bps, e.pool.bufs) && 0 < e.pool.pending < |e.pool.bufs|
    requires IsOrder(order, e.pool.bufs[e.pool.pending].blocks.Keys)
    ensures |order| <= c.bps
  {
    var m := e.pool.bufs[e.pool.pending].blocks;
    OrderSize(order, m.Keys);
    assert |m| == |m.Keys|;
  }

  /// Every handler keeps `Held`; nothing is asked of the guards.
  lemma {:induction false} StepHeld(c: Config, e: Engine, freed: set<nat>, s: Step)
    requires c.Valid() && Held(c, e, freed) && Fits(c.bps, e.pool.bufs) && Enabled(c, e, s)
    ensures Held(c, Apply(c, e, s), freed + FreedBy(c, s)) && Fits(c.bps, Apply(c, e, s).pool.bufs)
  {
    MoreFreed(c, e, freed, freed + FreedBy(c, s));
    match s
    case Write(lba, d, newKey) =>
      MoreBits(c, e, Push(c, e, lba, d, newKey), freed);
      PushFits(c, e.pool, lba, d, newKey);
    case FlushOldest(order, place) => FlushHeld(c, e, freed, order, place);
    case Collect(seg, bits, gcKey) =>
      GcHeld(c, e, freed, seg, bits, gcKey);
      GcUpToFits(c, AfterPop(e).(ok := e.ok && e.logging != Some(seg)), seg, bits, gcKey, c.bps);
    case NothingToCollect => MoreBits(c, e, AfterPop(e), freed);
    case Compaction(l1', att) =>
      CompactHeld(c, e, freed, l1', att);
      ReleaseAllSizes(c, e, att);
    hide Held, Fits, Gc, CompactionOk, ReleaseAll, PushPool, RoomToRotate, Answers;
  }

  lemma {:induction false} FlushHeld(c: Config, e: Engine, freed: set<nat>, order: seq<nat>, place: Place)
    requires c.Valid() && Held(c, e, freed) && Fits(c.bps, e.pool.bufs) && Enabled(c, e, FlushOldest(order, place))
    ensures Held(c, Flush(c, e, order, place), freed) && Flush(c, e, order, place).pool.bufs == e.pool.bufs
  {
    var b := e.pool.bufs[e.pool.pending];
    BufferFits(c, e, order);
    match place
    case Segment(seg) =>
      FlushUpToHeld(c, e, freed, order, b, seg, |order|);
      FlushPool(c, e, order, b, seg, |order|);
      MoreBits(c, FlushUpTo(c, e, order, b, seg, |order|), Flush(c, e, order, place), freed);
    case Logging(wheres) =>
      LogUpToHeld(c, e, freed, order, b, wheres, |order|);
      LogPool(c, e, order, b, wheres, |order|);
      MoreBits(c, LogUpTo(c, e, order, b, wheres, |order|), Flush(c, e, order, place), freed);
    hide Held, Fits, FlushUpTo, LogUpTo, Answers;
  }

  lemma {:induction false} InitHeld(c: Config, key: nat)
    requires c.Valid()
    ensures Held(c, Init(c, key), {}) && Fits(c.bps, Init(c, key).pool.bufs)
  {
    assert Levels(Init(c, key).ix) == [map[], map[], map[], map[]];
  }

  /// In every run, guarded or not, each record that is stored at any level and whose address no collection
  /// freed owns its block: the bit is set and the reverse index names it.
  lemma {:induction false} RunHeld(c: Config, key: nat, es: seq<Engine>, steps: seq<Step>)
    requires c.Valid() && Execution(c, key, es, steps)
    ensures Held(c, es[|steps|], FreedAfter(c, steps)) && Fits(c.bps, es[|steps|].pool.bufs)
  {
    hide Held, Fits, Enabled, Apply, Init, FreedBy;
    var n := |steps|;
    if n == 0 {
      InitHeld(c, key);
    } else {
      assert Execution(c, key, es[..n], steps[..n-1]);
      RunHeld(c, key, es[..n], steps[..n-1]);
      StepHeld(c, es[n-1], FreedAfter(c, steps[..n-1]), steps[n-1]);
    }
  }

  // ---------------------------------------------------------------- the monitor

  /// The guard "room", and that threaded logging found space.
  ghost predicate Room(c: Config, e: Engine, s: Step)
    requires c.Valid() && Enabled(c, e, s)
  {
    match s
    case Write(lba, d, _) => RoomToRotate(c.bps, e.pool, lba, d)
    case FlushOldest(_, place) =>
      && RoomFor(e.ix, c.cap, c.bps)
      && (place.Logging? ==> forall i :: 0 <= i < |place.wheres| ==> place.wheres[i].Some?)
    case _ => true
  }

  /// A freed address goes back to a block whose old record with that address is still stored.
  ghost predicate Reissued(e: Engine, freed: set<nat>, lba: nat, pba: nat) {
    pba in freed && !Unseen(e.ix, lba, pba)
  }

  /// Some block of the flush is such a case.
  ghost predicate Reissues(c: Config, e: Engine, freed: set<nat>, order: seq<nat>, place: Place)
    requires c.Valid() && Enabled(c, e, FlushOldest(order, place))
  {
    var b := e.pool.bufs[e.pool.pending];
    match place
    case Segment(seg) => exists i :: 0 <= i < |order| && Reissued(FlushUpTo(c, e, order, b, seg, i), freed, order[i], PbaOf(c, seg, i))
    case Logging(wheres) =>
      exists i :: 0 <= i < |order| && wheres[i].Some? && Reissued(LogUpTo(c, e, order, b, wheres, i), freed, order[i], wheres[i].value)
  }

  lemma {:induction false} FlushUpToFlag(c: Config, e: Engine, freed: set<nat>, order: seq<nat>, b: Buf, seg: nat, i: nat)
    requires c.Valid() && Held(c, e, freed) && seg < |e.svt| && seg < c.nseg && e.used[seg] == {} && e.ok
    requires i <= |order| <= c.bps && forall j :: 0 <= j < |order| ==> order[j] in b.blocks
    requires RoomFor(e.ix, c.cap, |order|)
    ensures RoomFor(FlushUpTo(c, e, order, b, seg, i).ix, c.cap, |order| - i)
    ensures FlushUpTo(c, e, order, b, seg, i).ok ||
      exists j :: 0 <= j < i && Reissued(FlushUpTo(c, e, order, b, seg, j), freed, order[j], PbaOf(c, seg, j))
  {
    hide Held, Spare, Issue, RoomFor, Reissued, Unseen, Rotates;
    if i > 0 {
      var e0, p := FlushUpTo(c, e, order, b, seg, i - 1), PbaOf(c, seg, i - 1);
      FlushUpToFlag(c, e, freed, order, b, seg, i - 1);
      FlushUpToHeld(c, e, freed, order, b, seg, i - 1);
      RoomStep(c, e0, order[i-1], p, b.key, b.blocks[order[i-1]], |order| - (i - 1));
      IssueFlag(c, e0, freed, order[i-1], p, b.key, b.blocks[order[i-1]]);
      ReissuedIs(e0, freed, order[i-1], p);
    }
  }

  lemma {:induction false} ReissuedIs(e: Engine, freed: set<nat>, lba: nat, pba: nat)
    ensures Reissued(e, freed, lba, pba) <==> pba in freed && !Unseen(e.ix, lba, pba)
  {
  }

  lemma {:induction false} LogBlockFlag(c: Config, e: Engine, freed: set<nat>, lba: nat, pba: nat, key: nat, d: Data, n: nat)
    requires c.Valid() && Held(c, e, freed) && MayLog(c, e, pba) && n >= 1 && RoomFor(e.ix, c.cap, n)
    ensures LogBlock(c, e, lba, Some(pba), key, d).ok || !e.ok || Reissued(e, freed, lba, pba)
  {
    var e1 := TakeBlockState(c, e, pba);
    TakeHeld(c, e, freed, pba);
    LogBlockIs(c, e, lba, Some(pba), key, d);
    RoomStep(c, e1, lba, pba, key, d, n);
    IssueFlag(c, e1, freed, lba, pba, key, d);
    TakeFlag(c, e, pba);
    hide Held, Spare, Issue, TakeBlockState, MayLog, RoomFor, Unseen, Rotates, LogBlock;
  }

  lemma {:induction false} TakeFlag(c: Config, e: Engine, pba: nat)
    requires c.Valid()
    ensures TakeBlockState(c, e, pba).ok == e.ok && TakeBlockState(c, e, pba).ix == e.ix
  {
  }

  lemma {:induction false} LogUpToFlag(c: Config, e: Engine, freed: set<nat>, order: seq<nat>, b: Buf, wheres: seq<Option<nat>>, i: nat)
    requires c.Valid() && Held(c, e, freed) && i <= |order| == |wheres| && e.ok
    requires forall j :: 0 <= j < |order| ==> order[j] in b.blocks
    requires Answers(c, e, order, b, wheres) && forall j :: 0 <= j < |wheres| ==> wheres[j].Some?
    requires RoomFor(e.ix, c.cap, |order|)
    ensures RoomFor(LogUpTo(c, e, order, b, wheres, i).ix, c.cap, |order| - i)
    ensures LogUpTo(c, e, order, b, wheres, i).ok ||
      exists j :: 0 <= j < i && wheres[j].Some? && Reissued(LogUpTo(c, e, order, b, wheres, j), freed, order[j], wheres[j].value)
  {
    hide Held, LogBlock, RoomFor, Reissued, MayLog;
    if i > 0 {
      var e0, p := LogUpTo(c, e, order, b, wheres, i - 1), wheres[i-1];
      LogUpToFlag(c, e, freed, order, b, wheres, i - 1);
      LogUpToHeld(c, e, freed, order, b, wheres, i - 1);
      assert Answer(c, e0, p);
      RoomLogged(c, e0, order[i-1], p, b.key, b.blocks[order[i-1]], |order| - (i - 1));
      LogBlockFlag(c, e0, freed, order[i-1], p.value, b.key, b.blocks[order[i-1]], |order| - (i - 1));
    }
  }

  lemma {:induction false} RoomLower(l: Layers, cap: nat, n: nat, m: nat)
    requires RoomFor(l, cap, n) && m <= n
    ensures RoomFor(l, cap, m)
  {
  }

  /// With room, the monitor of a step that is no collection drops exactly when the step reissues a freed
  /// address whose old record survives.
  lemma {:induction false} StepFlag(c: Config, e: Engine, freed: set<nat>, s: Step)
    requires c.Valid() && Held(c, e, freed) && Fits(c.bps, e.pool.bufs) && Enabled(c, e, s) && e.ok && Room(c, e, s) && !s.Collect?
    ensures Apply(c, e, s).ok <==> !(s.FlushOldest? && Reissues(c, e, freed, s.order, s.place))
  {
    match s
    case Write(_, _, _) => hide RoomToRotate, PushPool;
    case FlushOldest(order, place) => FlushFlag(c, e, freed, order, place);
    case NothingToCollect =>
    case Compaction(l1', att) => ReleaseAllSizes(c, e, att);
    hide Held, Fits, CompactionOk, ReleaseAll, Answers;
  }

  lemma {:induction false} FlushFlag(c: Config, e: Engine, freed: set<nat>, order: seq<nat>, place: Place)
    requires c.Valid() && Held(c, e, freed) && Fits(c.bps, e.pool.bufs) && e.ok
    requires Enabled(c, e, FlushOldest(order, place)) && Room(c, e, FlushOldest(order, place))
    ensures Flush(c, e, order, place).ok <==> !Reissues(c, e, freed, order, place)
  {
    var b := e.pool.bufs[e.pool.pending];
    BufferFits(c, e, order);
    RoomLower(e.ix, c.cap, c.bps, |order|);
    match place
    case Segment(seg) =>
      FlushUpToFlag(c, e, freed, order, b, seg, |order|);
      FlushUpToDrop(c, e, freed, order, b, seg, |order|);
    case Logging(wheres) =>
      LogUpToFlag(c, e, freed, order, b, wheres, |order|);
      LogUpToDrop(c, e, freed, order, b, wheres, |order|);
    hide Held, Fits, FlushUpTo, LogUpTo, Answers, Reissued, RoomFor;
  }

  lemma {:induction false} FlushUpToDrop(c: Config, e: Engine, freed: set<nat>, order: seq<nat>, b: Buf, seg: nat, i: nat)
    requires c.Valid() && i <= |order| && forall j :: 0 <= j < |order| ==> order[j] in b.blocks
    ensures FlushUpTo(c, e, order, b, seg, i).ok ==>
      forall j :: 0 <= j < i ==> !Reissued(FlushUpTo(c, e, order, b, seg, j), freed, order[j], PbaOf(c, seg, j))
  {
    hide Issue, Reissued, Unseen;
    if i > 0 {
      var e0, p := FlushUpTo(c, e, order, b, seg, i - 1), PbaOf(c, seg, i - 1);
      FlushUpToDrop(c, e, freed, order, b, seg, i - 1);
      IssueParts(c, e0, order[i-1], p, b.key, b.blocks[order[i-1]]);
      ReissuedIs(e0, freed, order[i-1], p);
    }
  }

  lemma {:induction false} LogUpToDrop(c: Config, e: Engine, freed: set<nat>, order: seq<nat>, b: Buf, wheres: seq<Option<nat>>, i: nat)
    requires c.Valid() && i <= |order| == |wheres| && forall j :: 0 <= j < |order| ==> order[j] in b.blocks
    ensures LogUpTo(c, e, order, b, wheres, i).ok ==>
      forall j :: 0 <= j < i && wheres[j].Some? ==> !Reissued(LogUpTo(c, e, order, b, wheres, j), freed, order[j], wheres[j].value)
  {
    hide Issue, Reissued, Unseen, TakeBlockState;
    if i > 0 {
      var e0, p := LogUpTo(c, e, order, b, wheres, i - 1), wheres[i-1];
      LogUpToDrop(c, e, freed, order, b, wheres, i - 1);
      LogMonitor(c, e0, order[i-1], p, b.key, b.blocks[order[i-1]]);
      if p.Some? {
        TakeFlag(c, e0, p.value);
        IssueParts(c, TakeBlockState(c, e0, p.value), order[i-1], p.value, b.key, b.blocks[order[i-1]]);
        ReissuedIs(e0, freed, order[i-1], p.value);
      }
    }
  }

  // ---------------------------------------------------------------- runs without collections

  lemma {:induction false} NothingFreed(c: Config, steps: seq<Step>)
    requires forall i :: 0 <= i < |steps| ==> !steps[i].Collect?
    ensures FreedAfter(c, steps) == {}
  {
    if steps != [] { NothingFreed(c, steps[..|steps|-1]); }
  }

  /// A run without collections, in which every step had room, keeps the monitor up: no address is ever
  /// reissued while an old record of it survives.
  lemma {:induction false} QuietRun(c: Config, key: nat, es: seq<Engine>, steps: seq<Step>)
    requires c.Valid() && Execution(c, key, es, steps)
    requires forall i :: 0 <= i < |steps| ==> !steps[i].Collect? && Room(c, es[i], steps[i])
    ensures es[|steps|].ok
  {
    hide Held, Fits, Enabled, Apply, Room, Reissues;
    var n := |steps|;
    if n > 0 {
      var es0, steps0 := es[..n], steps[..n-1];
      assert Execution(c, key, es0, steps0);
      QuietRun(c, key, es0, steps0);
      RunHeld(c, key, es0, steps0);
      NothingFreed(c, steps0);
      StepFlag(c, es[n-1], {}, steps[n-1]);
      if steps[n-1].FlushOldest? { NeverReissues(c, es[n-1], steps[n-1].order, steps[n-1].place); }
    }
  }

  lemma {:induction false} NeverReissues(c: Config, e: Engine, order: seq<nat>, place: Place)
    requires c.Valid() && Enabled(c, e, FlushOldest(order, place))
    ensures !Reissues(c, e, {}, order, place)
  {
  }

  /// End to end without the monitor: in a run without collections, in which every step had room, reading
  /// any block gives the data last written to it.
  lemma {:induction false} QuietEndToEnd(c: Config, key: nat, es: seq<Engine>, steps: seq<Step>, k: nat)
    requires c.Valid() && Execution(c, key, es, steps)
    requires forall i :: 0 <= i < |steps| ==> !steps[i].Collect? && Room(c, es[i], steps[i])
    ensures Read(es[|steps|], k) == if k in SpecAfter(steps) then Some(SpecAfter(steps)[k]) else None
  {
    hide Execution, Read;
    QuietRun(c, key, es, steps);
    EndToEnd(c, key, es, steps, k);
  }

  // ---------------------------------------------------------------- runs with collections

  /// The step at which the monitor drops: a collection, or a flush that reissues an address which an
  /// earlier collection freed.
  ghost predicate DropsAt(c: Config, es: seq<Engine>, steps: seq<Step>, i: nat)
    requires c.Valid() && i < |steps| && |es| == |steps| + 1 && Enabled(c, es[i], steps[i])
  {
    && es[i].ok && !es[i+1].ok
    && (steps[i].Collect? ||
        (steps[i].FlushOldest? && Reissues(c, es[i], FreedAfter(c, steps[..i]), steps[i].order, steps[i].place)))
  }

  /// With room throughout, nothing else makes the monitor drop.
  lemma {:induction false} OnlyFreedAddresses(c: Config, key: nat, es: seq<Engine>, steps: seq<Step>)
    requires c.Valid() && Execution(c, key, es, steps)
    requires forall i :: 0 <= i < |steps| ==> Room(c, es[i], steps[i])
    ensures es[|steps|].ok || exists i :: 0 <= i < |steps| && DropsAt(c, es, steps, i)
  {
    hide Held, Fits, Enabled, Apply, Room, Reissues, FreedAfter;
    var n := |steps|;
    if n > 0 {
      var es0, steps0 := es[..n], steps[..n-1];
      assert Execution(c, key, es0, steps0);
      OnlyFreedAddresses(c, key, es0, steps0);
      RunHeld(c, key, es0, steps0);
      if es0[n-1].ok {
        if !steps[n-1].Collect? { StepFlag(c, es[n-1], FreedAfter(c, steps0), steps[n-1]); }
        assert es[n].ok || DropsAt(c, es, steps, n - 1);
      } else {
        var i :| 0 <= i < n - 1 && DropsAt(c, es0, steps0, i);
        assert steps0[..i] == steps[..i];
        assert DropsAt(c, es, steps, i);
      }
    }
  }
}
