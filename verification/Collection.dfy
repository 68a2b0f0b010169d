/** What a collection round counts, and what it leaves in the leaf caches. */
module Collection {
  import opened Common
  import opened Index
  import opened Engine
  import E = Engine
  import opened EngineProofs
  import opened EngineTree
  import opened EngineRuns
  import opened Ownership
  import opened Exactness
  import opened HandlerSteps
  import opened LeafCache
  import opened LsmTree
  import opened Level

  /// The collector queues this block again: the newest record of its owner is at this address, and its
  /// data opens.
  predicate Reclaims(e: Engine, pba: nat) {
    && pba < |e.rit| && Moves(e, pba) && pba in e.disk
    && Open(e.disk[pba], Lookup(e.ix, KeyOf(e.rit[pba])).value.key, pba).Some?
  }

  /// The offsets below `n` of the victim's bitmap whose block the collector queues again.
  function Reclaimed(c: Config, e: Engine, seg: nat, bits: set<nat>, n: nat): set<nat> {
    set o | o in bits && o < n && Reclaims(e, PbaOf(c, seg, o))
  }

  lemma {:induction false} ReclaimsIs(e: Engine, pba: nat)
    ensures pba >= |e.rit| ==> !Reclaims(e, pba)
    ensures pba < |e.rit| ==>
      var r := Lookup(e.ix, KeyOf(e.rit[pba]));
      Reclaims(e, pba) <==> r.Some? && r.value.pba == pba && pba in e.disk && Open(e.disk[pba], r.value.key, pba).Some?
  {
    hide Lookup, Open, KeyOf;
  }

  lemma {:induction false} SameReclaims(e: Engine, e1: Engine, pba: nat)
    requires e1.rit == e.rit && e1.ix == e.ix && e1.disk == e.disk
    ensures Reclaims(e1, pba) == Reclaims(e, pba)
  {
    hide Lookup, Open, KeyOf;
  }

  lemma {:induction false} SameReclaimed(c: Config, e: Engine, e1: Engine, seg: nat, bits: set<nat>, n: nat)
    requires e1.rit == e.rit && e1.ix == e.ix && e1.disk == e.disk
    ensures Reclaimed(c, e1, seg, bits, n) == Reclaimed(c, e, seg, bits, n)
  {
    hide Reclaims;
    forall o | o in bits ensures Reclaims(e1, PbaOf(c, seg, o)) == Reclaims(e, PbaOf(c, seg, o)) {
      SameReclaims(e, e1, PbaOf(c, seg, o));
    }
  }

  /// After a negative of its key an address is not found any more; the other keys are as before.
  lemma {:induction false} AfterNegative(e: Engine, e1: Engine, cap: nat, k: nat, q: nat)
    requires LayersShape(e.ix) && q < |e.rit| <= INF_ADDR
    requires Rotates(e.ix, cap, k, None) ==> !e.ix.immPending
    requires e1.ix == Put(e.ix, cap, k, None) && |e1.rit| == |e.rit| && e1.rit[q] == e.rit[q] && e1.disk == e.disk
    requires KeyOf(e.rit[q]) == k ==> Lookup(e.ix, k).Some? && Lookup(e.ix, k).value.pba != q
    ensures Reclaims(e1, q) == Reclaims(e, q)
  {
    PutLive(e.ix, cap, k, None);
    var r := Lookup(e1.ix, k);
    assert r.Some? ==> Negative(r.value);
    hide Lookup, Put, Open, KeyOf, Rotates, LayersShape;
  }

  lemma {:induction false} OnlyEntry(e: Engine, e1: Engine, pba: nat, q: nat)
    requires pba < |e.rit| && q != pba && e1 == e.(rit := e.rit[pba := INF_ADDR])
    ensures Reclaims(e1, q) == Reclaims(e, q)
  {
    hide Lookup, Open, KeyOf;
  }

  /// Collecting one block does not change whether another one is queued again.
  lemma {:induction false} OthersReclaimed(c: Config, e: Engine, pba: nat, newKey: nat, q: nat)
    requires c.Valid() && LayersShape(e.ix) && RitOk(e.rit) && |e.rit| <= INF_ADDR && |e.pool.bufs| >= 1
    requires RoomFor(e.ix, c.cap, 1) && q != pba
    ensures var e1 := GcBlock(c, e, pba, newKey);
      Reclaims(e1, q) == Reclaims(e, q) && |e1.rit| == |e.rit|
  {
    hide *;
    GcBlockIs(c, e, pba, newKey);
    if pba < |e.rit| {
      var lba, e1 := e.rit[pba], e.(rit := e.rit[pba := INF_ADDR]);
      OnlyEntry(e, e1, pba, q);
      var r := Lookup(e.ix, KeyOf(lba));
      LookupKey(e.ix, KeyOf(lba));
      if r.Some? && r.value.pba == pba {
        RitAt(e.rit, pba);
        RoomNone(c, e.ix, lba, 1);
        PutNoneIs(c, e1, lba);
        var e2 := E.PutRecord(c, e1, lba, None);
        if q < |e.rit| { AfterNegative(e1, e2, c.cap, lba, q); } else { ReclaimsIs(e, q); ReclaimsIs(e2, q); }
        var plain := if pba in e.disk then Open(e.disk[pba], r.value.key, pba) else None;
        if plain.Some? {
          GcPushFrame(c, e2, lba, plain.value, newKey);
          SameReclaims(e2, GcPush(c, e2, lba, plain.value, newKey), q);
        }
      }
    }
  }

  /// The blocks from offset `i` on are queued again or not as before the round.
  ghost predicate Ahead(c: Config, e: Engine, s: Engine, seg: nat, i: nat) {
    forall o: nat :: i <= o ==> Reclaims(s, PbaOf(c, seg, o)) == Reclaims(e, PbaOf(c, seg, o))
  }

  lemma {:induction false} AheadStart(c: Config, e: Engine, seg: nat, bits: set<nat>)
    ensures Ahead(c, e, e, seg, 0) && Reclaimed(c, e, seg, bits, 0) == {}
  {
    hide Reclaims;
  }

  lemma {:induction false} AheadNext(c: Config, e: Engine, s: Engine, seg: nat, bits: set<nat>, newKey: nat, i: nat)
    requires c.Valid() && LayersShape(s.ix) && RitOk(s.rit) && |s.rit| == c.bps * c.nseg && |s.pool.bufs| >= 1
    requires RoomFor(s.ix, c.cap, 1) && Ahead(c, e, s, seg, i) && i in bits
    ensures Ahead(c, e, GcBlock(c, s, PbaOf(c, seg, i), newKey), seg, i + 1)
    ensures |Reclaimed(c, e, seg, bits, i + 1)| ==
      |Reclaimed(c, e, seg, bits, i)| + if Reclaims(s, PbaOf(c, seg, i)) then 1 else 0
  {
    hide Reclaims, GcBlock, RitOk, LayersShape, RoomFor;
    var e1 := GcBlock(c, s, PbaOf(c, seg, i), newKey);
    forall o: nat | i + 1 <= o ensures Reclaims(e1, PbaOf(c, seg, o)) == Reclaims(e, PbaOf(c, seg, o)) {
      OthersReclaimed(c, s, PbaOf(c, seg, i), newKey, PbaOf(c, seg, o));
    }
    var a, b := Reclaimed(c, e, seg, bits, i), Reclaimed(c, e, seg, bits, i + 1);
    assert Reclaims(s, PbaOf(c, seg, i)) == Reclaims(e, PbaOf(c, seg, i));
    assert b == if Reclaims(e, PbaOf(c, seg, i)) then a + {i} else a;
  }

  /// Offsets whose bit is clear are not counted.
  lemma {:induction false} AheadSkip(c: Config, e: Engine, s: Engine, seg: nat, bits: set<nat>, i: nat, o: nat)
    requires Ahead(c, e, s, seg, i) && i <= o && forall j: nat :: i <= j < o ==> j !in bits
    ensures Ahead(c, e, s, seg, o) && Reclaimed(c, e, seg, bits, o) == Reclaimed(c, e, seg, bits, i)
  {
    hide Reclaims;
  }

  // ---------------------------------------------------------------- the live blocks

  /// The offsets of the segment at which some block is live.
  ghost function LiveOffsets(c: Config, e: Engine, seg: nat): set<nat> {
    set o: nat | o < c.bps && !NotLive(e, PbaOf(c, seg, o))
  }

  /// While the invariant holds, a block is queued again exactly when it is live.
  lemma {:induction false} ReclaimsLive(c: Config, e: Engine, spec: Spec, pba: nat)
    requires c.Valid() && Inv(c, e, spec)
    ensures Reclaims(e, pba) <==> !NotLive(e, pba)
  {
    hide *;
    InvParts(c, e, spec);
    ReclaimsIs(e, pba);
    if pba < |e.rit| {
      var r := Lookup(e.ix, KeyOf(e.rit[pba]));
      if r.None? || r.value.pba != pba {
        OutOfDate(c, e, pba);
      } else {
        UpToDate(c, e, pba);
        HoldsAt(c, e, spec, e.rit[pba]);
        OpensIt(e.disk[pba], r.value.key, pba);
        IsLive(e, e.rit[pba], pba);
      }
    } else {
      NeverOut(c, e, pba);
    }
  }

  lemma {:induction false} OpensIt(b: Sealed, key: nat, pba: nat)
    requires b.key == key && b.seqno == pba
    ensures Open(b, key, pba).Some?
  {
  }

  lemma {:induction false} IsLive(e: Engine, k: nat, pba: nat)
    requires Live(e.ix, k).Some? && Live(e.ix, k).value.pba == pba
    ensures !NotLive(e, pba)
  {
  }

  lemma {:induction false} NeverOut(c: Config, e: Engine, pba: nat)
    requires c.Valid() && AllocOk(c, e) && pba >= |e.rit|
    ensures NotLive(e, pba)
  {
    forall k | Live(e.ix, k).Some? ensures Live(e.ix, k).value.pba != pba {
      assert Owns(c, e, k, Live(e.ix, k).value.pba);
    }
  }

  /// The count of a round is the number of blocks that were live in the segment before it.
  lemma {:induction false} CountsLive(c: Config, e: Engine, spec: Spec, seg: nat, bits: set<nat>)
    requires c.Valid() && Inv(c, e, spec) && TreeInv(c, e, None) && Pops(e, seg, bits) && e.logging != Some(seg)
    ensures Reclaimed(c, e, seg, bits, c.bps) == LiveOffsets(c, e, seg)
  {
    PopTree(c, e, seg, bits);
    AllocIn(c, e, spec);
    hide Inv, TreeInv, Pops, Reclaims, NotLive;
    forall o: nat | o < c.bps
      ensures Reclaims(e, PbaOf(c, seg, o)) <==> !NotLive(e, PbaOf(c, seg, o))
      ensures !NotLive(e, PbaOf(c, seg, o)) ==> o in bits
    {
      ReclaimsLive(c, e, spec, PbaOf(c, seg, o));
      LiveBit(c, e, spec, seg, o);
    }
  }

  lemma {:induction false} AllocIn(c: Config, e: Engine, spec: Spec)
    requires c.Valid() && Inv(c, e, spec)
    ensures |e.used| == c.nseg
  {
  }

  lemma {:induction false} LiveBit(c: Config, e: Engine, spec: Spec, seg: nat, o: nat)
    requires c.Valid() && Inv(c, e, spec) && o < c.bps && seg < |e.used|
    ensures !NotLive(e, PbaOf(c, seg, o)) ==> o in e.used[seg]
  {
    DivMod(c.bps, seg, o);
    if !NotLive(e, PbaOf(c, seg, o)) {
      var k :| Live(e.ix, k).Some? && Live(e.ix, k).value.pba == PbaOf(c, seg, o);
      assert Owns(c, e, k, PbaOf(c, seg, o));
    }
  }

  // ---------------------------------------------------------------- the leaf caches

  /// The search for one block of the victim: the files that are asked use their caches.
  ghost function AskedFor(e: Engine, s0: seq<File>, s1: seq<File>, cs: Caches, pba: nat): Caches {
    if pba < |e.rit| then PointCaches(e.ix, s0, s1, cs, KeyOf(e.rit[pba])) else cs
  }

  /// The engine once the segment's node is popped.
  function RoundStart(e: Engine, seg: nat): (e1: Engine)
    ensures e1.pool == e.pool
  {
    AfterPop(e).(ok := e.ok && e.logging != Some(seg))
  }

  /// A round as a step of the engine, and its count.
  lemma {:induction false} RoundIs(c: Config, e: Engine, spec: Spec, seg: nat, bits: set<nat>, newKey: nat)
    requires c.Valid() && |e.pool.bufs| >= 1 && Pops(e, seg, bits) && (e.ok ==> Inv(c, e, spec) && TreeInv(c, e, None))
    ensures Enabled(c, e, Step.Collect(seg, bits, newKey))
    ensures var e0 := RoundStart(e, seg);
      && e0 == AfterPop(e).(ok := e0.ok)
      && Apply(c, e, Step.Collect(seg, bits, newKey)) == ReturnSegment(GcUpTo(c, e0, seg, bits, newKey, c.bps), seg)
      && Reclaimed(c, e0, seg, bits, c.bps) == Reclaimed(c, e, seg, bits, c.bps)
    ensures e.ok && e.logging != Some(seg) ==> Reclaimed(c, e, seg, bits, c.bps) == LiveOffsets(c, e, seg)
  {
    hide *;
    CollectIs(c, e, seg, bits, newKey);
    StartFrame(e, seg);
    SameReclaimed(c, e, RoundStart(e, seg), seg, bits, c.bps);
    if e.ok && e.logging != Some(seg) { CountsLive(c, e, spec, seg, bits); }
  }

  lemma {:induction false} StartFrame(e: Engine, seg: nat)
    ensures var e0 := RoundStart(e, seg);
      && e0 == AfterPop(e).(ok := e.ok && e.logging != Some(seg))
      && e0.rit == e.rit && e0.ix == e.ix && e0.disk == e.disk && e0.pool == e.pool
  {
    hide Poppable;
  }

  /// The leaf caches after the searches for the victim's blocks below offset `o`.
  ghost function RoundCaches(c: Config, e: Engine, s0: seq<File>, s1: seq<File>, cs: Caches,
                             seg: nat, bits: set<nat>, newKey: nat, o: nat): Caches
    requires c.Valid() && |e.pool.bufs| >= 1
  {
    if o == 0 then cs
    else
      var before := RoundCaches(c, e, s0, s1, cs, seg, bits, newKey, o - 1);
      if o - 1 in bits then AskedFor(GcUpTo(c, e, seg, bits, newKey, o - 1), s0, s1, before, PbaOf(c, seg, o - 1)) else before
  }

  lemma {:induction false} CachesStart(c: Config, e: Engine, s0: seq<File>, s1: seq<File>, cs: Caches, seg: nat, bits: set<nat>, newKey: nat)
    requires c.Valid() && |e.pool.bufs| >= 1
    ensures RoundCaches(c, e, s0, s1, cs, seg, bits, newKey, 0) == cs
  {
  }

  lemma {:induction false} CachesNext(c: Config, e: Engine, s0: seq<File>, s1: seq<File>, cs: Caches, seg: nat, bits: set<nat>,
                                      newKey: nat, o: nat)
    requires c.Valid() && |e.pool.bufs| >= 1 && o in bits
    ensures RoundCaches(c, e, s0, s1, cs, seg, bits, newKey, o + 1) ==
      AskedFor(GcUpTo(c, e, seg, bits, newKey, o), s0, s1, RoundCaches(c, e, s0, s1, cs, seg, bits, newKey, o), PbaOf(c, seg, o))
  {
    hide AskedFor, GcUpTo;
  }

  lemma {:induction false} CachesSkip(c: Config, e: Engine, s0: seq<File>, s1: seq<File>, cs: Caches, seg: nat, bits: set<nat>,
                                      newKey: nat, i: nat, o: nat)
    requires c.Valid() && |e.pool.bufs| >= 1 && i <= o && forall j: nat :: i <= j < o ==> j !in bits
    ensures RoundCaches(c, e, s0, s1, cs, seg, bits, newKey, o) == RoundCaches(c, e, s0, s1, cs, seg, bits, newKey, i)
  {
    hide AskedFor, GcUpTo;
    if i < o { CachesSkip(c, e, s0, s1, cs, seg, bits, newKey, i, o - 1); }
  }

  /// Which caches a search touches depends on the index and the reverse index alone.
  lemma {:induction false} AskedIs(e: Engine, s0: seq<File>, s1: seq<File>, cs: Caches, pba: nat)
    ensures AskedFor(e, s0, s1, cs, pba) == if pba < |e.rit| then PointCaches(e.ix, s0, s1, cs, KeyOf(e.rit[pba])) else cs
  {
  }
}
