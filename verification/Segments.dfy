/** Space management: the segment validity table, the data segment table with its victim
tree, and the segment allocator. */
module Segments {
  import opened Common
  import opened Victims

  /// Number of set bits.
  function Count(t: seq<bool>): nat {
    if t == [] then 0 else Count(t[..|t|-1]) + (if t[|t|-1] then 1 else 0)
  }

  lemma {:induction false} CountSet(t: seq<bool>, i: nat, b: bool)
    requires i < |t|
    ensures Count(t[i := b]) == Count(t) - (if t[i] then 1 else 0) + (if b then 1 else 0)
  {
    var n := |t| - 1;
    if i == n {
      assert t[i := b][..n] == t[..n];
    } else {
      assert t[i := b][..n] == t[..n][i := b];
      CountSet(t[..n], i, b);
    }
  }

  lemma {:induction false} CountFull(t: seq<bool>)
    ensures Count(t) <= |t|
    ensures Count(t) == |t| <==> forall i :: 0 <= i < |t| ==> t[i]
  {
    if t != [] {
      var n := |t| - 1;
      CountFull(t[..n]);
      if forall i :: 0 <= i < n ==> t[..n][i] {
        assert forall i :: 0 <= i < n ==> t[i];
      } else {
        var i :| 0 <= i < n && !t[..n][i];
        assert !t[i];
      }
    }
  }

  /// The segment that a scan from `from` on, and then once more from 0, finds first.
  ghost predicate FirstClear(table: seq<bool>, from: nat, seg: nat) {
    && seg < |table| && !table[seg]
    && (from <= seg ==> forall i :: from <= i < seg ==> table[i])
    && (seg < from ==> (forall i :: from <= i < |table| ==> table[i]) && (forall i :: 0 <= i < seg ==> table[i]))
  }

  class SegValidator {
    const nr: nat
    var cur: nat
    var table: seq<bool>

    ghost predicate Valid()
      reads this
    {
      |table| == nr
    }

    /// seg_validator_init followed by format.
    constructor (n: nat)
      ensures Valid() && nr == n && Count(table) == 0 && cur == 0
      ensures forall i :: 0 <= i < nr ==> !table[i]
    {
      nr := n;
      cur := 0;
      table := seq(n, i => false);
      new;
      AllClear(table);
    }

    /// Finds a clear bit, from the cursor on and then once more from 0; fails iff every bit is set.
    method Next() returns (r: Option<nat>)
      requires Valid()
      modifies this`cur
      ensures r.None? <==> AllSet(table)
      ensures r.Some? ==> r.value < nr && FirstClear(table, old(cur), r.value) && cur == r.value
      ensures r.None? ==> cur == nr
    {
      var tries := 0;
      while true
        invariant Valid() && tries <= 1
        invariant tries == 0 ==> cur == old(cur)
        invariant tries == 1 ==> cur == 0 && forall i :: old(cur) <= i < nr ==> table[i]
        decreases 1 - tries
      {
        var from := cur;
        while cur < nr
          invariant from <= cur && (from <= nr ==> cur <= nr) && (from > nr ==> cur == from)
          invariant forall i :: from <= i < cur && i < nr ==> table[i]
        {
          if !table[cur] {
            return Some(cur);
          }
          cur := cur + 1;
        }
        if tries == 1 {
          return None;
        }
        tries := 1;
        cur := 0;
      }
    }

    /// Sets a bit and moves the cursor on; an index past the end is refused.
    method Take(seg: nat) returns (ok: bool)
      requires Valid()
      modifies this
      ensures Valid() && ok == (seg < nr)
      ensures table == if ok then old(table)[seg := true] else old(table)
      ensures cur == if ok then old(cur) + 1 else old(cur)
    {
      if seg >= nr { return false; }
      table := table[seg := true];
      cur := cur + 1;
      ok := true;
    }

    /// Clears a bit and returns what it was.
    method TestAndReturn(seg: nat) returns (was: Option<bool>)
      requires Valid()
      modifies this`table
      ensures Valid() && was.Some? == (seg < nr)
      ensures was.Some? ==> was.value == old(table)[seg] && table == old(table)[seg := false]
      ensures was.None? ==> table == old(table)
    {
      if seg >= nr { return None; }
      was := Some(table[seg]);
      table := table[seg := false];
    }

    /// The number of set bits, by a scan.
    method ValidSegmentCount() returns (count: nat)
      requires Valid()
      ensures count == Count(table)
    {
      count := 0;
      for segno := 0 to nr
        invariant count == Count(table[..segno])
      {
        assert table[..segno + 1][..segno] == table[..segno];
        if table[segno] { count := count + 1; }
      }
      assert table[..nr] == table;
    }
  }

  lemma {:induction false} AllClear(t: seq<bool>)
    requires forall i :: 0 <= i < |t| ==> !t[i]
    ensures Count(t) == 0
  {
    if t != [] { AllClear(t[..|t|-1]); }
  }

  class SegmentAllocator {
    var nrValid: nat

    constructor ()
      ensures nrValid == 0
    {
      nrValid := 0;
    }
  }

  predicate AllSet(t: seq<bool>) {
    forall i :: 0 <= i < |t| ==> t[i]
  }

  /// What ties the three structures together: the counter is exact, a used or indexed segment
  /// has its bit set, and so has the logging segment.
  ghost predicate Tied(table: seq<bool>, nrValid: nat, entries: seq<SegEntry>, vs: seq<Victim>, logging: Option<nat>)
  {
    && |table| == |entries| && nrValid == Count(table)
    && (forall s :: 0 <= s < |entries| && entries[s].nr > 0 ==> table[s])
    && (forall v :: v in vs && v.segno < |table| ==> table[v.segno])
    && (logging.Some? && logging.value < |table| ==> table[logging.value])
  }

  lemma {:induction false} TiedLog(table: seq<bool>, nrValid: nat, entries: seq<SegEntry>, vs: seq<Victim>, logging: Option<nat>,
                entries': seq<SegEntry>)
    requires Tied(table, nrValid, entries, vs, logging) && |entries'| == |entries|
    requires forall s :: 0 <= s < |entries| ==> entries'[s] == entries[s] || logging == Some(s)
    ensures Tied(table, nrValid, entries', vs, logging)
  {
  }

  lemma {:induction false} TiedLess(table: seq<bool>, nrValid: nat, entries: seq<SegEntry>, vs: seq<Victim>, logging: Option<nat>,
                                    vs': seq<Victim>)
    requires Tied(table, nrValid, entries, vs, logging) && forall v :: v in vs' ==> v in vs
    ensures Tied(table, nrValid, entries, vs', None)
  {
  }

  /// Clearing a bit keeps the count exact; in an empty entry there is nothing to clear.
  lemma {:induction false} OneLess(x: SegEntry, off: nat, bps: nat)
    requires EntryOk(x, bps)
    ensures var y := SegEntry(|x.bits - {off}|, x.bits - {off});
      && EntryOk(y, bps) && (x.nr == 0 || off !in x.bits ==> y == x)
      && (off in x.bits ==> x.nr > 0 && y.nr == x.nr - 1)
  {
    if off !in x.bits { assert x.bits - {off} == x.bits; }
  }

  /// A full logging segment is left: the tree and the logging segment without it.
  function TreeLeft(entries: seq<SegEntry>, vs: seq<Victim>, logging: Option<nat>, bps: nat): seq<Victim> {
    if logging.Some? && logging.value < |entries| && entries[logging.value].nr >= bps then Remove(vs, logging.value) else vs
  }

  function LoggingLeft(entries: seq<SegEntry>, logging: Option<nat>, bps: nat): Option<nat> {
    if logging.Some? && logging.value < |entries| && entries[logging.value].nr >= bps then None else logging
  }

  /// How dst_find_logging_block chooses: it keeps a logging segment, else takes the last victim, else a
  /// fresh segment.
  ghost predicate Chosen(vs: seq<Victim>, logging: Option<nat>, table: seq<bool>, cur: nat,
                         vs': seq<Victim>, logging': Option<nat>, table': seq<bool>, cur': nat) {
    && logging'.Some?
    && (logging.Some? ==> logging' == logging && vs' == vs && table' == table && cur' == cur)
    && (logging.None? ==> vs' == Remove(vs, logging'.value))
    && (logging.None? && vs != [] ==> logging'.value == vs[|vs|-1].segno && table' == table && cur' == cur)
    && (logging.None? && vs == [] ==>
         FirstClear(table, cur, logging'.value) && table' == table[logging'.value := true] && cur' == logging'.value + 1)
  }

  lemma {:induction false} ChosenIs(vs: seq<Victim>, table: seq<bool>, cur: nat, vs': seq<Victim>, seg: nat, table': seq<bool>, cur': nat)
    requires vs' == Remove(vs, seg)
    requires vs != [] ==> seg == vs[|vs|-1].segno && table' == table && cur' == cur
    requires vs == [] ==> FirstClear(table, cur, seg) && table' == table[seg := true] && cur' == seg + 1
    ensures Chosen(vs, None, table, cur, vs', Some(seg), table', cur')
  {
    hide Remove, FirstClear;
  }

  lemma {:induction false} ChosenParts(vs: seq<Victim>, logging: Option<nat>, table: seq<bool>, cur: nat,
                                       vs': seq<Victim>, logging': Option<nat>, table': seq<bool>, cur': nat)
    requires Chosen(vs, logging, table, cur, vs', logging', table', cur') && logging.None? && vs == []
    ensures logging'.value < |table| && !table[logging'.value]
  {
    hide Remove;
  }

  lemma {:induction false} LeftIs(entries: seq<SegEntry>, vs: seq<Victim>, logging: Option<nat>, bps: nat)
    ensures var full := logging.Some? && logging.value < |entries| && entries[logging.value].nr >= bps;
      && TreeLeft(entries, vs, logging, bps) == (if full then Remove(vs, logging.value) else vs)
      && LoggingLeft(entries, logging, bps) == if full then None else logging
    ensures forall table, cur :: logging.Some? ==> Chosen(vs, logging, table, cur, vs, logging, table, cur)
  {
    hide Remove;
  }

  class Dst {
    const bps: nat
    var entries: seq<SegEntry>
    var victims: seq<Victim>
    var logging: Option<nat>

    ghost predicate ValidBut(popped: Option<nat>)
      reads this
    {
      bps >= 1 && Agree(entries, victims, logging, popped, bps)
    }

    ghost predicate Valid()
      reads this
    {
      ValidBut(None)
    }

    constructor (nseg: nat, b: nat)
      requires b >= 1
      ensures Valid() && bps == b && |entries| == nseg && victims == [] && logging == None
      ensures forall s :: 0 <= s < nseg ==> entries[s] == SegEntry(0, {})
    {
      bps := b;
      entries := seq(nseg, i => SegEntry(0, {}));
      victims := [];
      logging := None;
    }

    /// The address of an offset of a segment.
    function Addr(segno: nat, off: nat): nat {
      segno * bps + off
    }

    /// dst_take_segment: the whole segment becomes valid; refused when a block of it still is.
    method TakeSegment(segno: nat) returns (ok: bool)
      requires Valid()
      modifies this`entries, this`victims
      ensures Valid() && ok == (segno < |old(entries)| && old(entries)[segno].nr == 0)
      ensures entries == if ok then old(entries)[segno := SegEntry(bps, Below(bps))] else old(entries)
      ensures victims == if ok then Remove(old(victims), segno) else old(victims)
      ensures forall v :: v in victims ==> v in old(victims)
    {
      if segno >= |entries| || entries[segno].nr != 0 { return false; }
      var full := SegEntry(bps, Below(bps));
      DropAgrees(entries, victims, logging, None, bps, segno, full);
      entries, victims := entries[segno := full], Remove(victims, segno);
      ok := true;
    }

    /// dst_return_segment: no block of it is valid any more.
    method ReturnSegment(segno: nat, ghost popped: Option<nat>) returns (ok: bool)
      requires ValidBut(popped) && (popped.Some? ==> popped.value == segno)
      modifies this`entries, this`victims
      ensures ok == (segno < |old(entries)|)
      ensures ok ==> Valid() && entries == old(entries)[segno := SegEntry(0, {})] && victims == Remove(old(victims), segno)
      ensures !ok ==> ValidBut(popped) && entries == old(entries)
      ensures forall v :: v in victims ==> v in old(victims)
    {
      if segno >= |entries| { return false; }
      var none := SegEntry(0, {});
      DropAgrees(entries, victims, logging, popped, bps, segno, none);
      entries, victims := entries[segno := none], Remove(victims, segno);
      ok := true;
    }

    /// dst_take_block.  The code counts the block whether or not its bit was clear, so count and bitmap
    /// agree afterwards exactly when it was.
    method TakeBlock(pba: nat) returns (ok: bool)
      requires Valid()
      modifies this`entries, this`victims
      ensures ok == (pba / bps < |old(entries)| && old(entries)[pba / bps].nr < bps)
      ensures ok ==> var x := old(entries)[pba / bps];
        entries == old(entries)[pba / bps := SegEntry(x.nr + 1, x.bits + {pba % bps})]
      ensures ok ==> victims == Update(old(victims), pba / bps, entries[pba / bps], bps)
      ensures ok ==> (Valid() <==> pba % bps !in old(entries)[pba / bps].bits)
      ensures !ok ==> Valid() && entries == old(entries) && victims == old(victims)
    {
      hide Update, Below;
      var segno, off := pba / bps, pba % bps;
      if segno >= |entries| || entries[segno].nr >= bps { return false; }
      var x := entries[segno];
      var y := SegEntry(x.nr + 1, x.bits + {off});
      CountedRight(x, off, bps);
      if off !in x.bits { UpdateAgrees(entries, victims, logging, None, bps, segno, y); }
      entries, victims := entries[segno := y], Update(victims, segno, y, bps);
      ok := true;
    }

    /// Counting a block twice breaks the entry.
    lemma {:induction false} CountedRight(x: SegEntry, off: nat, b: nat)
      requires EntryOk(x, b) && off < b
      ensures EntryOk(SegEntry(x.nr + 1, x.bits + {off}), b) <==> off !in x.bits
    {
      if off in x.bits { assert x.bits + {off} == x.bits; }
    }

    /// dst_return_block: clears one bit; a clear bit or an empty segment is left alone.
    method ReturnBlock(pba: nat)
      requires Valid()
      modifies this`entries, this`victims
      ensures Valid()
      ensures entries == if pba / bps < |old(entries)|
        then var x := old(entries)[pba / bps];
             old(entries)[pba / bps := SegEntry(|x.bits - {pba % bps}|, x.bits - {pba % bps})]
        else old(entries)
      ensures victims == if pba / bps < |old(entries)| && old(entries)[pba / bps].nr > 0
        then Update(old(victims), pba / bps, entries[pba / bps], bps) else old(victims)
      ensures forall v :: v in victims ==>
        v in old(victims) || (v.segno == pba / bps < |old(entries)| && old(entries)[pba / bps].nr > 0)
    {
      hide *;
      EntryParts();
      var segno, off := pba / bps, pba % bps;
      if segno >= |entries| { return; }
      var x := entries[segno];
      OneLess(x, off, bps);
      if x.nr == 0 { return; }
      var y := x;
      if off in x.bits {
        y := SegEntry(x.nr - 1, x.bits - {off});
      }
      UpdateAgrees(entries, victims, logging, None, bps, segno, y);
      entries, victims := entries[segno := y], Update(victims, segno, y, bps);
      AgreeIs();
    }

    lemma {:induction false} EntryParts()
      requires Valid()
      ensures bps >= 1 && Agree(entries, victims, logging, None, bps)
      ensures forall s :: 0 <= s < |entries| ==> EntryOk(entries[s], bps)
    {
    }

    lemma {:induction false} AgreeIs()
      requires bps >= 1 && Agree(entries, victims, logging, None, bps)
      ensures Valid()
    {
    }

    /// dst_pop_victim: a node with the least count leaves the tree.
    method PopVictim() returns (r: Option<Victim>)
      requires Valid()
      modifies this`victims
      ensures r.None? <==> old(victims) == []
      ensures r.None? ==> Valid() && victims == old(victims)
      ensures r.Some? ==> ValidBut(Some(r.value.segno)) && r.value in old(victims) && r.value.segno < |entries|
      ensures r.Some? ==> forall v :: v in old(victims) ==> r.value.nr <= v.nr
      ensures r.Some? ==> forall v :: v in victims <==> v in old(victims) && v.segno != r.value.segno
      ensures r.Some? ==> old(victims) != [] && r.value == old(victims)[0] && victims == old(victims)[1..]
    {
      if victims == [] { return None; }
      PopAgrees(entries, victims, logging, bps);
      RemoveKeeps(victims, victims[0].segno);
      r := Some(victims[0]);
      assert Remove(victims, victims[0].segno) == victims[1..];
      victims := Remove(victims, victims[0].segno);
    }

    /// The logging segment is unset or full and no other segment has a node.
    ghost predicate Stuck()
      requires Valid()
      reads this
    {
      && (logging.Some? ==> entries[logging.value].nr >= bps)
      && (forall v :: v in victims ==> logging == Some(v.segno))
    }

    /// The branch of dst_find_logging_block that has no logging segment: the victim with the most
    /// valid blocks, else a fresh segment.
    method PickLoggingSegment(svt: SegValidator, sa: SegmentAllocator) returns (ok: bool)
      requires Valid() && svt.Valid() && logging.None?
      requires Tied(svt.table, sa.nrValid, entries, victims, logging)
      modifies this`victims, this`logging, svt, sa
      ensures Valid() && svt.Valid()
      ensures Tied(svt.table, sa.nrValid, entries, victims, logging)
      ensures !ok <==> old(Stuck()) && AllSet(old(svt.table))
      ensures !ok ==> svt.table == old(svt.table) && logging.None? && victims == old(victims) == []
      ensures ok ==> logging.Some? && logging.value < |entries| && entries[logging.value].nr < bps
      ensures ok ==> svt.table == old(svt.table)[logging.value := true]
      ensures ok ==> victims == Remove(old(victims), logging.value)
      ensures ok && old(victims) == [] ==> FirstClear(old(svt.table), old(svt.cur), logging.value) && svt.cur == logging.value + 1
      ensures ok && old(victims) != [] ==> logging == Some(old(victims)[|old(victims)|-1].segno) && svt.table == old(svt.table)
      ensures ok && old(victims) != [] ==> svt.cur == old(svt.cur)
    {
      assert victims != [] ==> victims[0] in victims;
      if victims == [] {
        var seg := svt.Next();
        if seg.None? { return false; }
        var taken := svt.Take(seg.value);
        CountSet(old(svt.table), seg.value, true);
        sa.nrValid := sa.nrValid + 1;
        StartLogging(entries, victims, bps, seg.value);
        assert entries[seg.value].nr == 0;
        logging := seg;
        return true;
      }
      var v := victims[|victims| - 1];
      assert v in victims;
      StartLogging(entries, victims, bps, v.segno);
      RemoveKeeps(victims, v.segno);
      logging, victims := Some(v.segno), Remove(victims, v.segno);
      assert svt.table == svt.table[v.segno := true];
      ok := true;
    }

    /// The branch for a full logging segment: it is left for good.
    method LeaveLoggingSegment()
      requires Valid() && logging.Some? && entries[logging.value].nr >= bps
      modifies this`victims, this`logging
      ensures Valid() && logging.None?
      ensures Stuck() == old(Stuck())
      ensures victims == Remove(old(victims), old(logging).value)
      ensures forall v :: v in victims ==> v in old(victims)
    {
      StopLogging(entries, victims, bps, logging.value);
      EmptyIff(victims, logging.value);
      victims, logging := Remove(victims, logging.value), None;
      assert victims != [] ==> victims[0] in victims;
    }

    /// The entry gained exactly the bit `off`, which was the first clear one.
    ghost predicate OneMore(x: SegEntry, y: SegEntry, off: nat) {
      off !in x.bits && (forall i: nat :: i < off ==> i in x.bits) && y == SegEntry(x.nr + 1, x.bits + {off})
    }

    /// The last part: the first clear bit of a logging segment that is not full.  Its bitmap has one.
    method TakeFirstZero() returns (off: nat)
      requires Valid() && logging.Some? && entries[logging.value].nr < bps
      modifies this`entries
      ensures Valid() && off < bps && |entries| == |old(entries)|
      ensures entries == old(entries)[logging.value := entries[logging.value]]
      ensures OneMore(old(entries)[logging.value], entries[logging.value], off)
    {
      var seg := logging.value;
      var x := entries[seg];
      off := FirstZero(x.bits, bps);
      if off == bps {
        BitsBound(x.bits, bps);
        assert false;
      }
      var y := SegEntry(x.nr + 1, x.bits + {off});
      LogAgrees(entries, victims, bps, seg, y);
      entries := entries[seg := y];
    }

    lemma {:induction false} LoggingParts(table: seq<bool>, nrValid: nat)
      requires Valid() && Tied(table, nrValid, entries, victims, logging)
      ensures |entries| == |table| && (logging.Some? ==> logging.value < |entries| && table[logging.value := true] == table)
      ensures Stuck() && logging.Some? ==> entries[logging.value].nr >= bps
    {
    }

    /// The retry loop of dst_find_logging_block: it ends with a logging segment that has room,
    /// or fails because there is none.
    method SettleLogging(svt: SegValidator, sa: SegmentAllocator) returns (ok: bool)
      requires Valid() && svt.Valid()
      requires Tied(svt.table, sa.nrValid, entries, victims, logging)
      modifies this`victims, this`logging, svt, sa
      ensures Valid() && svt.Valid()
      ensures Tied(svt.table, sa.nrValid, entries, victims, logging)
      ensures ok == !(old(Stuck()) && AllSet(old(svt.table)))
      ensures !ok ==> svt.table == old(svt.table)
      ensures ok ==> logging.Some? && entries[logging.value].nr < bps
      ensures ok ==> svt.table == old(svt.table)[logging.value := true]
      ensures ok ==> Chosen(TreeLeft(entries, old(victims), old(logging), bps), LoggingLeft(entries, old(logging), bps),
                            old(svt.table), old(svt.cur), victims, logging, svt.table, svt.cur)
      ensures !ok ==> TreeLeft(entries, old(victims), old(logging), bps) == victims == []
      ensures !ok ==> LoggingLeft(entries, old(logging), bps) == logging == None
    {
      hide *;
      ghost var stuck := Stuck();
      ghost var vs0, lg0 := TreeLeft(entries, victims, logging, bps), LoggingLeft(entries, logging, bps);
      LeftIs(entries, victims, logging, bps);
      LoggingParts(svt.table, sa.nrValid);
      while logging.None? || entries[logging.value].nr >= bps
        invariant Valid() && svt.Valid() && Tied(svt.table, sa.nrValid, entries, victims, logging)
        invariant Stuck() ==> stuck && svt.table == old(svt.table)
        invariant !Stuck() ==> !(stuck && AllSet(old(svt.table)))
        invariant logging.Some? ==> logging.value < |entries|
        invariant |entries| == |svt.table| == |old(svt.table)|
        invariant logging.None? || entries[logging.value].nr >= bps ==> svt.table == old(svt.table) && svt.cur == old(svt.cur)
        invariant logging.Some? ==> svt.table == old(svt.table)[logging.value := true]
        invariant logging.None? ==> victims == vs0 && lg0.None?
        invariant logging.Some? && entries[logging.value].nr >= bps ==> victims == old(victims) && logging == old(logging)
        invariant logging.Some? && entries[logging.value].nr < bps ==>
          Chosen(vs0, lg0, old(svt.table), old(svt.cur), victims, logging, svt.table, svt.cur)
        decreases if logging.None? then 1 else if entries[logging.value].nr >= bps then 2 else 0
      {
        if logging.None? {
          ok := PickLoggingSegment(svt, sa);
          if !ok { return; }
          ChosenIs(vs0, old(svt.table), old(svt.cur), victims, logging.value, svt.table, svt.cur);
        } else {
          ghost var vs, was := victims, logging;
          LeaveLoggingSegment();
          TiedLess(svt.table, sa.nrValid, entries, vs, was, victims);
        }
        LoggingParts(svt.table, sa.nrValid);
      }
      LoggingParts(svt.table, sa.nrValid);
      ok := true;
    }

    /// dst_find_logging_block: a clear bit of the logging segment, choosing a new one when needed.
    /// It fails exactly when the space is exhausted.
    method FindLoggingBlock(svt: SegValidator, sa: SegmentAllocator) returns (r: Option<nat>, off: nat)
      requires Valid() && svt.Valid()
      requires Tied(svt.table, sa.nrValid, entries, victims, logging)
      modifies this, svt, sa
      ensures Valid() && svt.Valid()
      ensures Tied(svt.table, sa.nrValid, entries, victims, logging)
      ensures r.None? <==> old(Stuck()) && AllSet(old(svt.table))
      ensures r.None? ==> entries == old(entries) && svt.table == old(svt.table)
      ensures r.Some? ==> logging.Some? && logging.value < |old(entries)| == |entries| && off < bps
      ensures r.Some? ==> r.value == Addr(logging.value, off)
      ensures r.Some? ==> OneMore(old(entries)[logging.value], entries[logging.value], off)
      ensures r.Some? ==> entries == old(entries)[logging.value := entries[logging.value]]
      ensures r.Some? ==> svt.table == old(svt.table)[logging.value := true]
      ensures r.Some? ==> Chosen(TreeLeft(old(entries), old(victims), old(logging), bps), LoggingLeft(old(entries), old(logging), bps),
                                 old(svt.table), old(svt.cur), victims, logging, svt.table, svt.cur)
      ensures r.None? ==> TreeLeft(entries, old(victims), old(logging), bps) == victims == []
      ensures r.None? ==> LoggingLeft(entries, old(logging), bps) == logging == None
    {
      hide Agree, Tied, Chosen, Stuck, AllSet, TreeLeft, LoggingLeft;
      var ok := SettleLogging(svt, sa);
      if !ok { return None, 0; }
      LoggingParts(svt.table, sa.nrValid);
      ghost var es := entries;
      off := TakeFirstZero();
      TiedLog(svt.table, sa.nrValid, es, victims, logging, entries);
      r := Some(Addr(logging.value, off));
    }
  }

  /// sa_alloc: a fresh segment, or failure exactly when every segment bit is set.
  method Alloc(sa: SegmentAllocator, svt: SegValidator, dst: Dst) returns (r: Option<nat>)
    requires svt.Valid() && dst.Valid()
    requires Tied(svt.table, sa.nrValid, dst.entries, dst.victims, dst.logging)
    modifies sa, svt, dst`entries, dst`victims
    ensures svt.Valid() && dst.Valid()
    ensures Tied(svt.table, sa.nrValid, dst.entries, dst.victims, dst.logging)
    ensures r.None? <==> AllSet(old(svt.table))
    ensures r.None? ==> svt.table == old(svt.table) && dst.entries == old(dst.entries)
    ensures r.Some? ==> r.value < |old(svt.table)| && !old(svt.table)[r.value]
    ensures r.Some? ==> FirstClear(old(svt.table), old(svt.cur), r.value) && svt.cur == r.value + 1
    ensures r.Some? ==> svt.table == old(svt.table)[r.value := true]
    ensures r.Some? ==> r.value < |old(dst.entries)|
    ensures r.Some? ==> dst.entries == old(dst.entries)[r.value := SegEntry(dst.bps, Below(dst.bps))]
    ensures r.Some? ==> old(dst.entries)[r.value].nr == 0 && dst.victims == Remove(old(dst.victims), r.value)
    ensures r.None? ==> dst.victims == old(dst.victims)
  {
    r := svt.Next();
    if r.None? { return; }
    var seg := r.value;
    var taken := svt.Take(seg);
    CountSet(old(svt.table), seg, true);
    sa.nrValid := sa.nrValid + 1;
    assert dst.entries[seg].nr == 0;
    var ok := dst.TakeSegment(seg);
    assert ok;
  }

  /// Handing a segment back: its entry, its node and its bit go, and the counter drops by one.  That
  /// keeps the structures tied exactly when it is not the logging segment, which would be left without
  /// its bit.
  lemma {:induction false} TiedReturn(table: seq<bool>, nrValid: nat, entries: seq<SegEntry>, vs: seq<Victim>, logging: Option<nat>,
                   seg: nat, vs': seq<Victim>)
    requires Tied(table, nrValid, entries, vs, logging) && seg < |table| && table[seg]
    requires forall v :: v in vs' ==> v in vs && v.segno != seg
    ensures nrValid >= 1
    ensures Tied(table[seg := false], nrValid - 1, entries[seg := SegEntry(0, {})], vs', logging) <==> logging != Some(seg)
  {
    CountSet(table, seg, false);
  }

  /// Changes that need no new segment bit: blocks and nodes only of segments that had blocks.
  lemma {:induction false} TiedBlock(table: seq<bool>, nrValid: nat, entries: seq<SegEntry>, vs: seq<Victim>, logging: Option<nat>,
                  entries': seq<SegEntry>, vs': seq<Victim>)
    requires Tied(table, nrValid, entries, vs, logging) && |entries'| == |entries|
    requires forall s :: 0 <= s < |entries| && entries'[s].nr > 0 ==> entries[s].nr > 0
    requires forall v :: v in vs' ==> v in vs || (v.segno < |entries| && entries[v.segno].nr > 0)
    ensures Tied(table, nrValid, entries', vs', logging)
  {
  }

  /// The tree without one segment is empty iff every node belongs to that segment.
  lemma {:induction false} EmptyIff(vs: seq<Victim>, segno: nat)
    requires Sorted(vs) && Distinct(vs)
    ensures Remove(vs, segno) == [] <==> forall v :: v in vs ==> v.segno == segno
  {
    RemoveKeeps(vs, segno);
    var r := Remove(vs, segno);
    if r != [] { assert r[0] in vs; }
  }
}
