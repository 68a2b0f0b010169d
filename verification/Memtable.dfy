/** The in-memory table of recent records (memtable.c). */
module Memtable {
  import opened Common
  import opened Index
  import opened Tables

  class Memtable {
    var tree: Table
    var size: nat

    /// `size` counts values and negatives exactly.
    ghost predicate Valid()
      reads this
    {
      TableOk(tree) && size == Weight(tree)
    }

    constructor ()
      ensures Valid() && tree == map[] && size == 0
    {
      tree := map[];
      size := 0;
    }

    /// rbtree_memtable_put: `v` is a value or, when absent, a negative record.  A value that another
    /// value replaces is handed back; a value that a negative replaces is dropped.
    method Put(k: nat, v: Option<Record>) returns (prev: Option<Record>)
      requires Valid() && k < MAX_KEY && (v.Some? ==> !Negative(v.value))
      modifies this
      ensures Valid()
      ensures tree == old(tree)[k := PutCell(old(tree), k, v)]
      ensures prev == Replaced(old(tree), k, v)
      ensures size == old(size) + CellWeight(PutCell(old(tree), k, v)) - KeyWeight(old(tree), k)
    {
      WeightUpdate(tree, k, PutCell(tree, k, v));
      prev := None;
      if k in tree {
        WeightPick(tree, k);
        var cell := tree[k];
        if v.None? {
          if cell.val.Some? { size := size - 1; }
          if cell.neg { size := size - 1; }
          tree := tree[k := Cell(None, true)];
        } else {
          if cell.val.Some? { size := size - 1; }
          prev := cell.val;
          tree := tree[k := cell.(val := v)];
        }
      } else {
        tree := tree[k := Cell(v, v.None?)];
      }
      size := size + 1;
    }

    /// rbtree_memtable_get: the value, else the negative record.
    method Get(k: nat) returns (r: Option<Record>)
      ensures r == if k in tree then Some(First(tree[k])) else None
    {
      if k !in tree { return None; }
      if tree[k].val.Some? { return tree[k].val; }
      r := Some(TOMBSTONE);
    }

    /// rbtree_memtable_remove.
    method Remove(k: nat) returns (r: Option<Record>)
      requires Valid()
      modifies this
      ensures Valid() && tree == old(tree) - {k} && r == Val(old(tree), k)
    {
      WeightRemove(tree, k);
      if k !in tree {
        assert tree - {k} == tree;
        return None;
      }
      WeightPick(tree, k);
      var cell := tree[k];
      tree := tree - {k};
      if cell.val.Some? { size := size - 1; }
      if cell.neg { size := size - 1; }
      r := cell.val;
    }

    /// rbtree_memtable_get_all_entry: the keys in tree order.
    method GetAllEntry() returns (order: seq<nat>)
      ensures Ascending(order) && forall k :: k in tree <==> k in order
    {
      order := InOrder(tree.Keys);
    }

    /// rbtree_memtable_clear.
    method Clear()
      modifies this
      ensures Valid() && tree == map[] && size == 0
    {
      tree, size := map[], 0;
    }
  }

  /// A walk of a tree from rb_first along rb_next.
  method InOrder(keys: set<nat>) returns (order: seq<nat>)
    ensures Ascending(order) && forall k :: k in keys <==> k in order
  {
    order := [];
    var rest := keys;
    while rest != {}
      invariant Ascending(order)
      invariant forall k :: k in keys <==> k in order || k in rest
      invariant forall k, j :: k in order && j in rest ==> k < j
      decreases |rest|
    {
      var k := Least(rest);
      forall i | 0 <= i < |order| ensures order[i] < k { assert order[i] in order; }
      order := order + [k];
      rest := rest - {k};
    }
  }

  lemma {:induction false} LeastExists(s: set<nat>) returns (k: nat)
    requires s != {}
    ensures k in s && forall j :: j in s ==> k <= j
    decreases |s|
  {
    k :| k in s;
    var rest := s - {k};
    if rest != {} {
      var y := LeastExists(rest);
      assert forall j :: j in s ==> j == k || j in rest;
      k := if k < y then k else y;
    } else {
      assert forall j :: j in s ==> j == k || j in rest;
    }
  }

  /// The leftmost key of a tree.
  function Least(s: set<nat>): (k: nat)
    requires s != {}
    ensures k in s && forall j :: j in s ==> k <= j
  {
    assert exists k :: k in s && forall j :: j in s ==> k <= j by { var least := LeastExists(s); }
    var k :| k in s && forall j :: j in s ==> k <= j;
    k
  }
}
