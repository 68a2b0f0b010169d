/** The empty node of a logging segment, on the objects of the allocator.

The collector runs beside the flush.  When it pops the node of the logging segment after that became
empty, the segment loses its bit while `logging` still names it; the flush goes on logging into it, and
the next allocation picks it although it holds a block. */
module LoggingHandover {
  import opened Common
  import opened Victims
  import opened Segments

  const BOTH: set<nat> := {0, 1}

  lemma {:induction false} Halves()
    ensures Below(2) == BOTH && |BOTH| == 2 && BOTH - {0} == {1} && |{1}| == 1 && {1} - {1} == {}
  {
    assert Below(2) == BOTH;
  }

  lemma {:induction false} FullAgain()
    ensures Below(2) == BOTH && Remove([], 1) == []
  {
    Halves();
  }

  /// Both blocks of a segment are released: its node says that it is empty.
  method ReleaseBoth(dst: Dst, seg: nat)
    requires dst.Valid() && dst.bps == 2 && seg < |dst.entries| && dst.entries[seg] == SegEntry(2, BOTH)
    requires dst.victims == []
    modifies dst`entries, dst`victims
    ensures dst.Valid() && dst.entries == old(dst.entries)[seg := SegEntry(0, {})]
    ensures dst.victims == [Victim(seg, 0, {})]
  {
    Halves();
    dst.ReturnBlock(2 * seg);
    assert dst.entries[seg] == SegEntry(1, {1}) && dst.victims == [Victim(seg, 1, {1})];
    dst.ReturnBlock(2 * seg + 1);
    assert Remove([Victim(seg, 1, {1})], seg) == [];
  }

  /// The zero-count branch of gc_one_segment on the only node.
  method CollectEmpty(dst: Dst, svt: SegValidator, seg: nat)
    requires dst.Valid() && svt.Valid() && dst.victims == [Victim(seg, 0, {})] && seg < |dst.entries| == |svt.table|
    modifies dst`entries, dst`victims, svt`table
    ensures dst.Valid() && svt.Valid() && dst.victims == []
    ensures dst.entries == old(dst.entries)[seg := SegEntry(0, {})] && svt.table == old(svt.table)[seg := false]
  {
    var v := dst.PopVictim();
    var ok := dst.ReturnSegment(v.value.segno, Some(v.value.segno));
    var was := svt.TestAndReturn(v.value.segno);
    assert Remove([], seg) == [];
  }

  /// Two blocks of threaded logging fill the empty segment 0, the only victim.
  method LogBoth(dst: Dst, svt: SegValidator, sa: SegmentAllocator)
    requires dst.Valid() && svt.Valid() && dst.bps == 2 && Tied(svt.table, sa.nrValid, dst.entries, dst.victims, dst.logging)
    requires dst.entries == [SegEntry(0, {}), SegEntry(2, BOTH)] && dst.victims == [Victim(0, 0, {})] && dst.logging == None
    requires svt.table == [true, true]
    modifies dst, svt, sa
    ensures dst.Valid() && svt.Valid() && dst.entries == [SegEntry(2, BOTH), SegEntry(2, BOTH)] && dst.victims == []
    ensures dst.logging == Some(0) && svt.table == [true, true] && sa.nrValid == 2
  {
    TwoSet();
    var a, i := dst.FindLoggingBlock(svt, sa);
    assert dst.logging == Some(0) && dst.victims == [];
    assert OneOf(i);
    assert dst.entries == [SegEntry(1, {i}), SegEntry(2, BOTH)];
    var b, j := dst.FindLoggingBlock(svt, sa);
    assert dst.logging == Some(0) && dst.victims == [] && OneOf(j) && j != i;
    assert {i} + {j} == BOTH;
  }

  predicate OneOf(i: nat) {
    i == 0 || i == 1
  }

  lemma {:induction false} TwoSet()
    ensures Count([true, true]) == 2 && Count([true, false]) == 1 && Count([false, true]) == 1
  {
    assert [true, true][..1] == [true] && [true, false][..1] == [true] && [false, true][..1] == [false];
    assert [true][..0] == [] && [false][..0] == [];
    assert Count([]) == 0 && Count([true]) == 1 && Count([false]) == 0;
  }

  method Formatted() returns (dst: Dst, svt: SegValidator, sa: SegmentAllocator)
    ensures fresh(dst) && fresh(svt) && fresh(sa) && dst.Valid() && svt.Valid() && dst.bps == 2
    ensures Tied(svt.table, sa.nrValid, dst.entries, dst.victims, dst.logging)
    ensures dst.entries == [SegEntry(0, {}), SegEntry(0, {})] && dst.victims == [] && dst.logging == None
    ensures svt.table == [false, false]
  {
    dst := new Dst(2, 2);
    svt := new SegValidator(2);
    sa := new SegmentAllocator();
  }

  /// The device after both segments were allocated whole.
  method TwoBuffers() returns (dst: Dst, svt: SegValidator, sa: SegmentAllocator)
    ensures fresh(dst) && fresh(svt) && fresh(sa) && dst.Valid() && svt.Valid() && dst.bps == 2
    ensures Tied(svt.table, sa.nrValid, dst.entries, dst.victims, dst.logging)
    ensures dst.entries == [SegEntry(2, BOTH), SegEntry(2, BOTH)] && dst.victims == [] && dst.logging == None
    ensures svt.table == [true, true]
  {
    hide Agree, Tied, Count;
    FullAgain();
    dst, svt, sa := Formatted();
    assert !svt.table[0];
    var a := Alloc(sa, svt, dst);
    assert a.Some? && svt.table == [false, false][a.value := true];
    assert !svt.table[1 - a.value];
    var b := Alloc(sa, svt, dst);
    assert b.Some? && a != b;
    assert dst.entries == [SegEntry(0, {}), SegEntry(0, {})][a.value := SegEntry(2, BOTH)][b.value := SegEntry(2, BOTH)];
  }

  /// Segment 1 is released, collected and allocated again.
  method Recycle(dst: Dst, svt: SegValidator, sa: SegmentAllocator)
    requires dst.Valid() && svt.Valid() && dst.bps == 2 && dst.entries == [SegEntry(2, BOTH), SegEntry(2, BOTH)]
    requires dst.victims == [] && dst.logging == Some(0) && svt.table == [true, true] && sa.nrValid == 2
    modifies dst`entries, dst`victims, svt, sa
    ensures dst.Valid() && svt.Valid() && dst.entries == [SegEntry(2, BOTH), SegEntry(2, BOTH)]
    ensures dst.victims == [] && svt.table == [true, true]
    ensures Tied(svt.table, sa.nrValid, dst.entries, dst.victims, dst.logging)
  {
    ReleaseBoth(dst, 1);
    CollectEmpty(dst, svt, 1);
    sa.nrValid := sa.nrValid - 1;
    TwoSet();
    assert svt.table == [true, false];
    FullAgain();
    var r := Alloc(sa, svt, dst);
    assert r == Some(1);
  }

  /// The collector hands back the logging segment under a flush; the allocation after that.
  method PickAgain(dst: Dst, svt: SegValidator) returns (picked: Option<nat>, taken: bool, count: nat)
    requires dst.Valid() && svt.Valid() && dst.bps == 2 && dst.entries == [SegEntry(0, {}), SegEntry(2, BOTH)]
    requires dst.victims == [Victim(0, 0, {})] && dst.logging == Some(0) && svt.table == [true, true]
    modifies dst, svt
    ensures picked == Some(0) && !taken && count == 1
  {
    CollectEmpty(dst, svt, 0);
    assert svt.table == [false, true];
    var off := dst.TakeFirstZero();
    count := dst.entries[0].nr;
    assert !svt.table[0];
    picked := svt.Next();
    var marked := svt.Take(picked.value);
    taken := dst.TakeSegment(picked.value);
  }

  /// A history of a device with two segments of two blocks.  Two buffers are written to fresh segments and
  /// rewritten, the second time by threaded logging to segment 0; segment 1 is collected and taken for a
  /// buffer that rewrites the blocks of segment 0.  The next buffer finds no segment and begins threaded
  /// logging; before its first block is placed, the collector pops the node of segment 0.  Then an
  /// allocation picks segment 0, marks it, and is refused because it holds a block.
  method HandedBack() returns (picked: Option<nat>, taken: bool, count: nat)
    ensures picked == Some(0) && !taken && count == 1
  {
    hide Agree, Count;
    var dst, svt, sa := TwoBuffers();
    ReleaseBoth(dst, 0);
    LogBoth(dst, svt, sa);
    Recycle(dst, svt, sa);
    ReleaseBoth(dst, 0);
    picked := Alloc(sa, svt, dst);
    assert picked.None?;
    picked, taken, count := PickAgain(dst, svt);
  }
}
