/** The victim tree of the data segment table, as the sequence its in-order walk visits,
and the agreement between it and the table itself. */
module Victims {
  import opened Common

  /// A table entry: the stored count and the set bits of the bitmap.
  datatype SegEntry = SegEntry(nr: nat, bits: set<nat>)
  datatype Victim = Victim(segno: nat, nr: nat, bits: set<nat>)

  lemma {:induction false} BitsBound(s: set<nat>, n: nat)
    requires s <= Below(n)
    ensures |s| <= n
    ensures |s| == n <==> s == Below(n)
  {
    var rest := Below(n) - s;
    assert s + rest == Below(n);
    if |s| == n {
      assert |rest| == 0;
    }
  }

  /// The first clear bit below `n`, or `n`.
  function FirstZero(bits: set<nat>, n: nat): (o: nat)
    ensures o <= n
    ensures o < n ==> o !in bits
    ensures forall i: nat :: i < o ==> i in bits
  {
    FirstZeroFrom(bits, n, 0)
  }

  function FirstZeroFrom(bits: set<nat>, n: nat, i: nat): (o: nat)
    requires i <= n && forall j: nat :: j < i ==> j in bits
    ensures i <= o <= n
    ensures o < n ==> o !in bits
    ensures forall j: nat :: j < o ==> j in bits
    decreases n - i
  {
    if i == n || i !in bits then i else FirstZeroFrom(bits, n, i + 1)
  }

  // ---------------------------------------------------------------- the tree

  ghost predicate Sorted(vs: seq<Victim>) {
    forall i, j :: 0 <= i < j < |vs| ==> vs[i].nr <= vs[j].nr
  }

  ghost predicate Distinct(vs: seq<Victim>) {
    forall i, j :: 0 <= i < j < |vs| ==> vs[i].segno != vs[j].segno
  }

  /// The victim of a segment, if the tree has one (node_list[segno]).
  function Find(vs: seq<Victim>, segno: nat): (r: Option<Victim>)
    ensures r.Some? ==> r.value in vs && r.value.segno == segno
    ensures r.None? ==> forall v :: v in vs ==> v.segno != segno
  {
    if vs == [] then None
    else if vs[0].segno == segno then Some(vs[0])
    else Find(vs[1..], segno)
  }

  /// rb_add: after every node that is not larger.
  function Insert(vs: seq<Victim>, v: Victim): (r: seq<Victim>)
    ensures |r| == |vs| + 1
    ensures forall w :: w in r <==> w == v || w in vs
  {
    if vs == [] || v.nr < vs[0].nr then [v] + vs
    else
      var r := [vs[0]] + Insert(vs[1..], v);
      assert forall w :: w in vs <==> w == vs[0] || w in vs[1..];
      r
  }

  /// rb_erase of a segment's node.
  function Remove(vs: seq<Victim>, segno: nat): (r: seq<Victim>)
    ensures forall w :: w in r ==> w in vs
  {
    if vs == [] then []
    else if vs[0].segno == segno then vs[1..]
    else [vs[0]] + Remove(vs[1..], segno)
  }

  lemma {:induction false} InsertSorted(vs: seq<Victim>, v: Victim)
    requires Sorted(vs)
    ensures Sorted(Insert(vs, v))
  {
    if vs != [] && v.nr >= vs[0].nr {
      InsertSorted(vs[1..], v);
      var r := Insert(vs[1..], v);
      forall j | 0 <= j < |r| ensures vs[0].nr <= r[j].nr {
        assert r[j] in r;
      }
    }
  }

  lemma {:induction false} InsertDistinct(vs: seq<Victim>, v: Victim)
    requires Distinct(vs) && forall w :: w in vs ==> w.segno != v.segno
    ensures Distinct(Insert(vs, v))
  {
    if vs != [] && v.nr >= vs[0].nr {
      InsertDistinct(vs[1..], v);
      var r := Insert(vs[1..], v);
      forall j | 0 <= j < |r| ensures vs[0].segno != r[j].segno {
        assert r[j] in r;
      }
    }
  }

  lemma {:induction false} RemoveMembers(vs: seq<Victim>, segno: nat, w: Victim)
    requires Distinct(vs)
    ensures w in Remove(vs, segno) <==> w in vs && w.segno != segno
  {
    if vs != [] {
      assert w in vs <==> w == vs[0] || w in vs[1..];
      if vs[0].segno != segno {
        RemoveMembers(vs[1..], segno, w);
      } else if w in vs[1..] {
        var i :| 0 <= i < |vs[1..]| && vs[1..][i] == w;
        assert vs[i + 1] == w;
      }
    }
  }

  lemma {:induction false} RemoveOrder(vs: seq<Victim>, segno: nat)
    requires Sorted(vs) && Distinct(vs)
    ensures Sorted(Remove(vs, segno)) && Distinct(Remove(vs, segno))
  {
    if vs != [] && vs[0].segno != segno {
      RemoveOrder(vs[1..], segno);
      var t := Remove(vs[1..], segno);
      forall j | 0 <= j < |t| ensures vs[0].nr <= t[j].nr && vs[0].segno != t[j].segno {
        assert t[j] in t;
        assert t[j] in vs[1..];
      }
    }
  }

  lemma {:induction false} RemoveKeeps(vs: seq<Victim>, segno: nat)
    requires Sorted(vs) && Distinct(vs)
    ensures var r := Remove(vs, segno);
      && Sorted(r) && Distinct(r)
      && forall w :: w in r <==> w in vs && w.segno != segno
  {
    RemoveOrder(vs, segno);
    forall w ensures w in Remove(vs, segno) <==> w in vs && w.segno != segno {
      RemoveMembers(vs, segno, w);
    }
  }

  // ---------------------------------------------------------------- agreement

  ghost predicate EntryOk(x: SegEntry, bps: nat) {
    x.nr == |x.bits| && x.bits <= Below(bps)
  }

  ghost predicate EntriesOk(entries: seq<SegEntry>, bps: nat) {
    forall s :: 0 <= s < |entries| ==> EntryOk(entries[s], bps)
  }

  /// The tree is a sorted index of segments, one node each, none of them full.
  ghost predicate TreeOk(vs: seq<Victim>, nseg: nat, bps: nat) {
    && Sorted(vs) && Distinct(vs)
    && forall v :: v in vs ==> v.segno < nseg && v.nr < bps && v.nr == |v.bits|
  }

  /// A node of a segment that is not being logged to is an exact copy of its entry.
  ghost predicate Exact(entries: seq<SegEntry>, vs: seq<Victim>, logging: Option<nat>) {
    forall v :: v in vs && Some(v.segno) != logging ==>
      v.segno < |entries| && v.nr == entries[v.segno].nr && v.bits == entries[v.segno].bits
  }

  /// A partly valid segment has a node, unless it is the logging one or the one GC has popped.
  ghost predicate Complete(entries: seq<SegEntry>, vs: seq<Victim>, logging: Option<nat>, popped: Option<nat>, bps: nat) {
    forall s: nat :: s < |entries| && 0 < entries[s].nr < bps && Some(s) != logging && Some(s) != popped
      ==> Find(vs, s).Some?
  }

  ghost predicate Agree(entries: seq<SegEntry>, vs: seq<Victim>, logging: Option<nat>, popped: Option<nat>, bps: nat) {
    && EntriesOk(entries, bps) && TreeOk(vs, |entries|, bps)
    && Exact(entries, vs, logging) && Complete(entries, vs, logging, popped, bps)
    && (logging.Some? ==> logging.value < |entries|)
  }

  lemma {:induction false} FindIff(vs: seq<Victim>, s: nat, v: Victim)
    requires v in vs && v.segno == s
    ensures Find(vs, s).Some?
  {
  }

  /// dst_update_victim: the old node is replaced by a copy of the new entry, if that is not full.
  function Update(vs: seq<Victim>, segno: nat, x: SegEntry, bps: nat): seq<Victim> {
    var r := Remove(vs, segno);
    if x.nr >= bps then r else Insert(r, Victim(segno, x.nr, x.bits))
  }

  /// Storing a new entry for one segment and refreshing its node keeps the agreement.
  lemma {:induction false} UpdateAgrees(entries: seq<SegEntry>, vs: seq<Victim>, logging: Option<nat>, popped: Option<nat>,
                     bps: nat, segno: nat, x: SegEntry)
    requires Agree(entries, vs, logging, popped, bps) && segno < |entries| && EntryOk(x, bps)
    ensures Agree(entries[segno := x], Update(vs, segno, x, bps), logging, popped, bps)
    ensures forall v :: v in Update(vs, segno, x, bps) ==> v in vs || v.segno == segno
  {
    RemoveKeeps(vs, segno);
    var r := Remove(vs, segno);
    var v := Victim(segno, x.nr, x.bits);
    var vs' := Update(vs, segno, x, bps);
    if x.nr < bps {
      InsertSorted(r, v);
      InsertDistinct(r, v);
    }
    var es := entries[segno := x];
    forall s: nat | s < |es| && 0 < es[s].nr < bps && Some(s) != logging && Some(s) != popped
      ensures Find(vs', s).Some?
    {
      if s == segno {
        FindIff(vs', s, v);
      } else {
        var w := Find(vs, s).value;
        FindIff(vs', s, w);
      }
    }
  }

  /// Storing an empty or full entry and dropping the node keeps the agreement.
  lemma {:induction false} DropAgrees(entries: seq<SegEntry>, vs: seq<Victim>, logging: Option<nat>, popped: Option<nat>,
                   bps: nat, segno: nat, x: SegEntry)
    requires Agree(entries, vs, logging, popped, bps) && segno < |entries| && EntryOk(x, bps)
    requires x.nr == 0 || x.nr == bps
    ensures Agree(entries[segno := x], Remove(vs, segno), logging, if popped == Some(segno) then None else popped, bps)
  {
    RemoveKeeps(vs, segno);
    var es, r := entries[segno := x], Remove(vs, segno);
    forall s: nat | s < |es| && 0 < es[s].nr < bps && Some(s) != logging && (Some(s) != popped || popped == Some(segno))
      ensures Find(r, s).Some?
    {
      FindIff(r, s, Find(vs, s).value);
    }
  }

  /// Turning a segment into the logging segment takes its node out of the tree.
  lemma {:induction false} StartLogging(entries: seq<SegEntry>, vs: seq<Victim>, bps: nat, segno: nat)
    requires Agree(entries, vs, None, None, bps) && segno < |entries|
    ensures Agree(entries, Remove(vs, segno), Some(segno), None, bps)
  {
    RemoveKeeps(vs, segno);
    var r := Remove(vs, segno);
    forall s: nat | s < |entries| && 0 < entries[s].nr < bps && s != segno ensures Find(r, s).Some? {
      FindIff(r, s, Find(vs, s).value);
    }
  }

  /// A full logging segment can be left: every node is exact again.
  lemma {:induction false} StopLogging(entries: seq<SegEntry>, vs: seq<Victim>, bps: nat, segno: nat)
    requires Agree(entries, vs, Some(segno), None, bps) && entries[segno].nr >= bps
    ensures Agree(entries, Remove(vs, segno), None, None, bps)
  {
    RemoveKeeps(vs, segno);
    var r := Remove(vs, segno);
    forall s: nat | s < |entries| && 0 < entries[s].nr < bps ensures Find(r, s).Some? {
      FindIff(r, s, Find(vs, s).value);
    }
  }

  /// Writing to the logging segment does not touch the tree.
  lemma {:induction false} LogAgrees(entries: seq<SegEntry>, vs: seq<Victim>, bps: nat, segno: nat, x: SegEntry)
    requires Agree(entries, vs, Some(segno), None, bps) && EntryOk(x, bps)
    ensures Agree(entries[segno := x], vs, Some(segno), None, bps)
  {
  }

  /// Popping the first node: it has the least count of all.
  lemma {:induction false} PopAgrees(entries: seq<SegEntry>, vs: seq<Victim>, logging: Option<nat>, bps: nat)
    requires Agree(entries, vs, logging, None, bps) && vs != []
    ensures Agree(entries, Remove(vs, vs[0].segno), logging, Some(vs[0].segno), bps)
    ensures forall v :: v in vs ==> vs[0].nr <= v.nr
  {
    var segno := vs[0].segno;
    RemoveKeeps(vs, segno);
    var r := Remove(vs, segno);
    forall s: nat | s < |entries| && 0 < entries[s].nr < bps && Some(s) != logging && s != segno
      ensures Find(r, s).Some?
    {
      FindIff(r, s, Find(vs, s).value);
    }
  }
}
