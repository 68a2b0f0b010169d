/** The log-structured index seen as a stack of tables.

A table maps a key to a cell: a value, a negative record, or a value followed by a
negative record.  The stack is the memtable, the immutable memtable, level 0 and
level 1; `Lookup` asks them in that order. */
module Index {
  import opened Common

  datatype Cell = Cell(val: Option<Record>, neg: bool)
  type Table = map<nat, Cell>

  ghost predicate CellOk(c: Cell) {
    && (c.val.Some? || c.neg)
    && (c.val.Some? ==> !Negative(c.val.value))
  }

  ghost predicate TableOk(t: Table) {
    forall k :: k in t ==> k < MAX_KEY && CellOk(t[k])
  }

  /// The record a search of one table returns for a key it holds: the value comes first.
  function First(c: Cell): Record {
    if c.val.Some? then c.val.value else TOMBSTONE
  }

  /// The value a table stores for a key, if any.
  function Val(t: Table, k: nat): Option<Record> {
    if k in t then t[k].val else None
  }

  datatype Layers = Layers(mem: Table, size: nat, imm: Option<Table>, immPending: bool,
                           l0: Option<Table>, l1: Table)

  function TableOf(o: Option<Table>): Table {
    if o.Some? then o.value else map[]
  }

  /// Search order of lsm_tree_search.
  function Lookup(l: Layers, k: nat): Option<Record> {
    if k in l.mem then Some(First(l.mem[k]))
    else if k in TableOf(l.imm) then Some(First(TableOf(l.imm)[k]))
    else if k in TableOf(l.l0) then Some(First(TableOf(l.l0)[k]))
    else if k in l.l1 then Some(First(l.l1[k]))
    else None
  }

  /// The newest record of a key when it is not negative.
  function Live(l: Layers, k: nat): Option<Record> {
    var r := Lookup(l, k);
    if r.Some? && !Negative(r.value) then r else None
  }

  // ---------------------------------------------------------------- put

  /// Memtable insertion: the new cell and the value it replaces.
  function PutCell(t: Table, k: nat, v: Option<Record>): Cell {
    if v.None? then Cell(None, true)
    else Cell(v, k in t && t[k].neg)
  }

  function CellWeight(c: Cell): nat {
    (if c.val.Some? then 1 else 0) + (if c.neg then 1 else 0)
  }

  function KeyWeight(t: Table, k: nat): nat {
    if k in t then CellWeight(t[k]) else 0
  }

  /// What a put hands back for release: only a value replaced by another value.
  function Replaced(t: Table, k: nat, v: Option<Record>): Option<Record> {
    if v.Some? then Val(t, k) else None
  }

  function Rotate(l: Layers): Layers {
    Layers(map[], 0, Some(l.mem), true, l.l0, l.l1)
  }

  /// The size after a put.  `size` is always the memtable's weight, so the subtraction is exact.
  function PutSize(l: Layers, k: nat, v: Option<Record>): nat {
    var s: int := l.size + CellWeight(PutCell(l.mem, k, v)) - KeyWeight(l.mem, k);
    if s >= 0 then s else 0
  }

  function Inserted(l: Layers, k: nat, v: Option<Record>): Layers {
    l.(mem := l.mem[k := PutCell(l.mem, k, v)], size := PutSize(l, k, v))
  }

  function Put(l: Layers, cap: nat, k: nat, v: Option<Record>): Layers {
    var l1 := Inserted(l, k, v);
    if l1.size >= cap then Rotate(l1) else l1
  }

  predicate Rotates(l: Layers, cap: nat, k: nat, v: Option<Record>) {
    PutSize(l, k, v) >= cap
  }

  // ---------------------------------------------------------------- compaction

  /// Level 1 after a major compaction: for every key the value of the pair of tables is kept.
  ghost predicate MergedValues(f: Table, g: Table, g': Table) {
    forall k :: Val(g', k) == if k in f then Val(f, k) else Val(g, k)
  }

  /// The last record a table stores for a key it holds.
  function LastRecord(c: Cell): Record {
    if c.neg then TOMBSTONE else if c.val.Some? then c.val.value else TOMBSTONE
  }

  /// A key whose old block a major compaction tries to release: a plain value over any older record.
  predicate Overwritten(f: Table, g: Table, k: nat) {
    k in f && !f[k].neg && k in g
  }

  /// Minor compaction, with the level-1 table that the nested major compaction produced.
  function Minor(l: Layers, l1': Table): Layers {
    l.(immPending := false, l0 := l.imm, l1 := if l.l0.Some? then l1' else l.l1)
  }

  // ---------------------------------------------------------------- invariant

  /// The tables that count as separate versions of the data; once minor compaction has
  /// run, the immutable memtable is only a copy of level 0.
  function Levels(l: Layers): seq<Table> {
    [l.mem, if l.immPending then TableOf(l.imm) else map[], TableOf(l.l0), l.l1]
  }

  /// Two levels never hold values of one key at one address.
  ghost predicate NoAlias(l: Layers) {
    forall i, j, k {:trigger Val(Levels(l)[i], k), Val(Levels(l)[j], k)} ::
      0 <= i < j < 4 && Val(Levels(l)[i], k).Some? && Val(Levels(l)[j], k).Some?
      ==> Val(Levels(l)[i], k).value.pba != Val(Levels(l)[j], k).value.pba
  }

  /// Sound tables; an immutable memtable that is not waiting for compaction is a copy of level 0.
  ghost predicate LayersShape(l: Layers) {
    && TableOk(l.mem) && TableOk(TableOf(l.imm)) && TableOk(TableOf(l.l0)) && TableOk(l.l1)
    && (!l.immPending ==> l.imm.None? || l.imm == l.l0)
    && (l.immPending ==> l.imm.Some?)
  }

  ghost predicate LayersOk(l: Layers) {
    LayersShape(l) && NoAlias(l)
  }

  /// The address is not stored for this key anywhere in the index.
  predicate Unseen(l: Layers, k: nat, pba: nat) {
    forall i :: 0 <= i < 4 ==>
      var v := Val(Levels(l)[i], k);
      v.Some? ==> v.value.pba != pba
  }

  /// A put changes the newest record of its own key and of no other.
  lemma {:induction false} PutLive(l: Layers, cap: nat, k: nat, v: Option<Record>)
    requires LayersShape(l)
    requires v.Some? ==> !Negative(v.value)
    requires Rotates(l, cap, k, v) ==> !l.immPending
    ensures Live(Put(l, cap, k, v), k) == v
    ensures forall j :: j != k ==> Lookup(Put(l, cap, k, v), j) == Lookup(l, j)
  {
    var l2 := Put(l, cap, k, v);
    forall j | j != k
      ensures Lookup(l2, j) == Lookup(l, j)
    {
      assert j in l.mem[k := PutCell(l.mem, k, v)] <==> j in l.mem;
    }
  }

  lemma {:induction false} PutOk(l: Layers, cap: nat, k: nat, v: Option<Record>)
    requires LayersOk(l) && k < MAX_KEY
    requires v.Some? ==> !Negative(v.value) && Unseen(l, k, v.value.pba)
    requires Rotates(l, cap, k, v) ==> !l.immPending
    ensures LayersOk(Put(l, cap, k, v))
  {
    var mid := Inserted(l, k, v);
    assert NoAlias(mid) by {
      forall i, j, q | 0 <= i < j < 4 && Val(Levels(mid)[i], q).Some? && Val(Levels(mid)[j], q).Some?
        ensures Val(Levels(mid)[i], q).value.pba != Val(Levels(mid)[j], q).value.pba
      {
        assert Levels(mid)[j] == Levels(l)[j];
        if i == 0 && q == k {
          assert v.Some?;
        } else {
          assert Val(Levels(mid)[i], q) == Val(Levels(l)[i], q);
        }
      }
    }
    if mid.size >= cap {
      var r := Rotate(mid);
      forall i, j, q | 0 <= i < j < 4 && Val(Levels(r)[i], q).Some? && Val(Levels(r)[j], q).Some?
        ensures Val(Levels(r)[i], q).value.pba != Val(Levels(r)[j], q).value.pba
      {
        assert i != 0;
        if i == 1 {
          assert Levels(r)[1] == Levels(mid)[0];
          assert Levels(r)[j] == Levels(mid)[j];
        } else {
          assert Levels(r)[i] == Levels(mid)[i] && Levels(r)[j] == Levels(mid)[j];
        }
      }
    }
  }

  /// Minor compaction, with or without a nested major one, changes no newest value.
  lemma {:induction false} MinorLive(l: Layers, l1': Table, k: nat)
    requires LayersShape(l) && l.immPending
    requires l.l0.Some? ==> MergedValues(l.l0.value, l.l1, l1')
    requires TableOk(l1')
    ensures Live(Minor(l, l1'), k) == Live(l, k)
  {
    var m := Minor(l, l1');
    if k !in l.mem && k !in TableOf(l.imm) && l.l0.Some? {
      assert Val(l1', k) == if k in l.l0.value then Val(l.l0.value, k) else Val(l.l1, k);
    }
  }

  lemma {:induction false} MinorOk(l: Layers, l1': Table)
    requires LayersOk(l) && l.immPending
    requires l.l0.Some? ==> MergedValues(l.l0.value, l.l1, l1')
    requires TableOk(l1')
    ensures LayersOk(Minor(l, l1'))
  {
    var m := Minor(l, l1');
    forall i, j, k | 0 <= i < j < 4 && Val(Levels(m)[i], k).Some? && Val(Levels(m)[j], k).Some?
      ensures Val(Levels(m)[i], k).value.pba != Val(Levels(m)[j], k).value.pba
    {
      assert i != 1 && j != 1;
      var i' := if i == 2 then 1 else i;
      assert Levels(m)[i] == Levels(l)[i'];
      if j == 2 {
        assert Levels(m)[2] == Levels(l)[1];
      } else if l.l0.Some? {
        assert Val(l1', k) == if k in l.l0.value then Val(l.l0.value, k) else Val(l.l1, k);
        var j' := if k in l.l0.value then 2 else 3;
        assert Val(Levels(m)[3], k) == Val(Levels(l)[j'], k);
      } else {
        assert Levels(m)[3] == Levels(l)[3];
      }
    }
  }
}
