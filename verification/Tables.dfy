/** Entry sequences, as index files store them, against the tables they stand for. */
module Tables {
  import opened Common
  import opened Index

  /// Keys never go down; a key occurs once, or as a value directly followed by a negative.
  ghost predicate Shape(es: seq<Entry>) {
    && (forall i :: 0 <= i < |es| ==> es[i].key < MAX_KEY && (Negative(es[i].rec) ==> es[i].rec == TOMBSTONE))
    && (forall i, j :: 0 <= i < j < |es| ==> es[i].key <= es[j].key)
    && (forall i, j :: 0 <= i < j < |es| && es[i].key == es[j].key ==>
         j == i + 1 && !Negative(es[i].rec) && Negative(es[j].rec))
  }

  /// One more record of a key.
  function AddEntry(t: Table, e: Entry): Table {
    if Negative(e.rec) then t[e.key := Cell(Val(t, e.key), true)]
    else t[e.key := Cell(Some(e.rec), e.key in t && t[e.key].neg)]
  }

  function TableFrom(es: seq<Entry>): Table {
    if es == [] then map[] else AddEntry(TableFrom(es[..|es|-1]), es[|es|-1])
  }

  /// The record a front-to-back scan finds first.
  function FirstMatch(es: seq<Entry>, k: nat): Option<Record> {
    if es == [] then None
    else if es[0].key == k then Some(es[0].rec)
    else FirstMatch(es[1..], k)
  }

  /// The record a front-to-back scan finds last.
  function LastMatch(es: seq<Entry>, k: nat): Option<Record> {
    if es == [] then None
    else if es[|es|-1].key == k then Some(es[|es|-1].rec)
    else LastMatch(es[..|es|-1], k)
  }

  lemma {:induction false} FirstMatchConcat(a: seq<Entry>, b: seq<Entry>, k: nat)
    ensures FirstMatch(a + b, k) == if FirstMatch(a, k).Some? then FirstMatch(a, k) else FirstMatch(b, k)
  {
    if a == [] {
      assert a + b == b;
    } else {
      assert (a + b)[0] == a[0] && (a + b)[1..] == a[1..] + b;
      FirstMatchConcat(a[1..], b, k);
    }
  }

  lemma {:induction false} FirstMatchNone(es: seq<Entry>, k: nat)
    ensures FirstMatch(es, k).None? <==> forall i :: 0 <= i < |es| ==> es[i].key != k
  {
    if es != [] {
      FirstMatchNone(es[1..], k);
      if forall i :: 0 <= i < |es| ==> es[i].key != k {
        assert forall i :: 0 <= i < |es[1..]| ==> es[1..][i].key == es[i+1].key;
      } else {
        var i :| 0 <= i < |es| && es[i].key == k;
        if i > 0 { assert es[1..][i-1].key == k; }
      }
    }
  }

  lemma {:induction false} FirstMatchAt(es: seq<Entry>, k: nat, i: nat)
    requires i < |es| && es[i].key == k && forall j :: 0 <= j < i ==> es[j].key != k
    ensures FirstMatch(es, k) == Some(es[i].rec)
  {
    if i > 0 {
      assert es[0].key != k;
      FirstMatchAt(es[1..], k, i - 1);
    }
  }

  lemma {:induction false} LastMatchAt(es: seq<Entry>, k: nat, i: nat)
    requires i < |es| && es[i].key == k && forall j :: i < j < |es| ==> es[j].key != k
    ensures LastMatch(es, k) == Some(es[i].rec)
  {
    if i < |es| - 1 { LastMatchAt(es[..|es|-1], k, i); }
  }

  lemma {:induction false} LastMatchNone(es: seq<Entry>, k: nat)
    ensures LastMatch(es, k).None? <==> forall i :: 0 <= i < |es| ==> es[i].key != k
  {
    if es != [] {
      var n := |es| - 1;
      LastMatchNone(es[..n], k);
      if forall i :: 0 <= i < |es| ==> es[i].key != k {
        assert forall i :: 0 <= i < n ==> es[..n][i].key == es[i].key;
      } else {
        var i :| 0 <= i < |es| && es[i].key == k;
        if i < n { assert es[..n][i].key == k; }
      }
    }
  }

  /// In a well-shaped file the two scans differ exactly for the keys that hold a value and a negative.
  lemma {:induction false} LastIsFirst(es: seq<Entry>, k: nat)
    requires Shape(es)
    ensures LastMatch(es, k) == FirstMatch(es, k) <==>
      !(k in TableFrom(es) && TableFrom(es)[k].val.Some? && TableFrom(es)[k].neg)
    ensures k in TableFrom(es) ==> LastMatch(es, k) == Some(LastRecord(TableFrom(es)[k]))
  {
    TableFromOk(es);
    FirstIsTable(es, k);
    FirstMatchNone(es, k);
    LastMatchNone(es, k);
    LastCellIs(es, k);
    hide TableFrom, Shape, FirstMatch, LastMatch;
  }

  lemma {:induction false} LastCellIs(es: seq<Entry>, k: nat)
    requires Shape(es)
    ensures k in TableFrom(es) ==> LastMatch(es, k) == Some(LastRecord(TableFrom(es)[k]))
    ensures k !in TableFrom(es) ==> LastMatch(es, k).None?
  {
    if es != [] {
      var n := |es| - 1;
      ShapePrefix(es, n);
      LastCellIs(es[..n], k);
      if es[n].key == k && !Negative(es[n].rec) { LastCell(es, n); }
    }
  }

  lemma {:induction false} TableKeys(es: seq<Entry>, k: nat)
    ensures k in TableFrom(es) <==> exists i :: 0 <= i < |es| && es[i].key == k
  {
    if es != [] {
      var n := |es| - 1;
      TableKeys(es[..n], k);
      if k in TableFrom(es[..n]) {
        var i :| 0 <= i < n && es[..n][i].key == k;
        assert es[i].key == k;
      }
      if i :| 0 <= i < |es| && es[i].key == k {
        if i < n { assert es[..n][i].key == k; }
      }
    }
  }

  lemma {:induction false} ShapePrefix(es: seq<Entry>, n: nat)
    requires Shape(es) && n <= |es|
    ensures Shape(es[..n])
  {
  }

  /// A well-shaped sequence read front to back answers like its table.
  lemma {:induction false} FirstIsTable(es: seq<Entry>, k: nat)
    requires Shape(es)
    ensures FirstMatch(es, k) == if k in TableFrom(es) then Some(First(TableFrom(es)[k])) else None
  {
    if es != [] {
      var n := |es| - 1;
      ShapePrefix(es, n);
      FirstIsTable(es[..n], k);
      assert es == es[..n] + [es[n]];
      FirstMatchConcat(es[..n], [es[n]], k);
      var t := TableFrom(es[..n]);
      TableKeys(es[..n], k);
      if es[n].key == k && k in t {
        var i :| 0 <= i < n && es[..n][i].key == k;
        assert es[i].key == es[n].key;
        LastCell(es[..n], i);
      } else if es[n].key == k {
        assert FirstMatch([es[n]], k) == Some(es[n].rec);
      } else {
        assert FirstMatch([es[n]], k) == None;
      }
    }
  }

  /// The last entry of a well-shaped sequence, when it is a value, is its key's whole cell.
  lemma {:induction false} LastCell(es: seq<Entry>, i: nat)
    requires Shape(es) && i + 1 == |es| && !Negative(es[i].rec)
    ensures es[i].key in TableFrom(es) && TableFrom(es)[es[i].key] == Cell(Some(es[i].rec), false)
  {
    TableKeys(es[..i], es[i].key);
    assert forall j :: 0 <= j < i ==> es[..i][j].key == es[j].key != es[i].key;
  }

  lemma {:induction false} TableFromOk(es: seq<Entry>)
    requires Shape(es)
    ensures TableOk(TableFrom(es))
  {
    if es != [] {
      ShapePrefix(es, |es| - 1);
      TableFromOk(es[..|es|-1]);
    }
  }

  // ---------------------------------------------------------------- weight

  /// Number of records in a table: values plus negatives.
  ghost function Weight(t: Table): nat
    decreases |t.Keys|
  {
    if t == map[] then 0
    else
      var k :| k in t;
      assert (t - {k}).Keys == t.Keys - {k};
      CellWeight(t[k]) + Weight(t - {k})
  }

  /// The choice made inside `Weight` does not matter.
  lemma {:induction false} WeightPick(t: Table, k: nat)
    requires k in t
    ensures Weight(t) == CellWeight(t[k]) + Weight(t - {k})
    decreases |t.Keys|
  {
    var j :| j in t && Weight(t) == CellWeight(t[j]) + Weight(t - {j});
    assert (t - {j}).Keys == t.Keys - {j} && (t - {k}).Keys == t.Keys - {k};
    if j != k {
      WeightPick(t - {j}, k);
      WeightPick(t - {k}, j);
      assert t - {j} - {k} == t - {k} - {j};
    }
  }

  lemma {:induction false} WeightUpdate(t: Table, k: nat, c: Cell)
    ensures Weight(t[k := c]) == Weight(t) - KeyWeight(t, k) + CellWeight(c)
  {
    var t' := t[k := c];
    WeightPick(t', k);
    assert t' - {k} == t - {k};
    if k in t {
      WeightPick(t, k);
    } else {
      assert t - {k} == t;
    }
  }

  lemma {:induction false} WeightRemove(t: Table, k: nat)
    ensures Weight(t - {k}) == Weight(t) - KeyWeight(t, k)
  {
    if k in t {
      WeightPick(t, k);
    } else {
      assert t - {k} == t;
    }
  }

  // ---------------------------------------------------------------- what minor compaction writes

  /// The records of one cell, value first.
  function CellEntries(k: nat, c: Cell): seq<Entry> {
    (if c.val.Some? then [Entry(k, c.val.value)] else []) + (if c.neg then [Entry(k, TOMBSTONE)] else [])
  }

  /// The records of a table, visited in the given key order.
  function EntriesIn(t: Table, order: seq<nat>): seq<Entry>
    requires forall x :: x in order ==> x in t
  {
    if order == [] then []
    else
      var n := |order| - 1;
      EntriesIn(t, order[..n]) + CellEntries(order[n], t[order[n]])
  }

  ghost predicate Ascending(order: seq<nat>) {
    forall i, j :: 0 <= i < j < |order| ==> order[i] < order[j]
  }

  lemma {:induction false} AddCell(es: seq<Entry>, k: nat, c: Cell)
    requires CellOk(c) && k !in TableFrom(es)
    ensures TableFrom(es + CellEntries(k, c)) == TableFrom(es)[k := c]
  {
    var cs := CellEntries(k, c);
    if c.val.Some? && c.neg {
      var a := es + [Entry(k, c.val.value)];
      assert es + cs == a + [Entry(k, TOMBSTONE)];
      assert (a + [Entry(k, TOMBSTONE)])[..|a|] == a;
      assert a[..|es|] == es;
    } else {
      assert |cs| == 1 && (es + cs)[..|es|] == es;
    }
  }

  lemma {:induction false} ShapeAppend(es: seq<Entry>, k: nat, c: Cell)
    requires Shape(es) && CellOk(c) && k < MAX_KEY && forall i :: 0 <= i < |es| ==> es[i].key < k
    ensures Shape(es + CellEntries(k, c))
  {
  }

  lemma {:induction false} InitLast(order: seq<nat>)
    requires Ascending(order) && order != []
    ensures var n := |order| - 1;
      && Ascending(order[..n]) && (forall x :: x in order[..n] ==> x < order[n])
      && (forall x :: x in order <==> x in order[..n] || x == order[n])
  {
    assert order == order[..|order|-1] + [order[|order|-1]];
  }

  /// Minor compaction writes a well-shaped file ...
  lemma {:induction false} EntriesShape(t: Table, order: seq<nat>)
    requires TableOk(t) && Ascending(order) && forall x :: x in order ==> x in t
    ensures Shape(EntriesIn(t, order))
    ensures forall e :: e in EntriesIn(t, order) ==> e.key in order
    ensures order != [] ==> EntriesIn(t, order) != []
  {
    if order != [] {
      var n := |order| - 1;
      var a := EntriesIn(t, order[..n]);
      InitLast(order);
      hide Ascending;
      EntriesShape(t, order[..n]);
      assert forall i :: 0 <= i < |a| ==> a[i].key < order[n] by {
        forall i | 0 <= i < |a| ensures a[i].key < order[n] { assert a[i] in a; }
      }
      ShapeAppend(a, order[n], t[order[n]]);
    }
  }

  /// ... that stands for exactly the memtable.
  lemma {:induction false} EntriesTable(t: Table, order: seq<nat>)
    requires TableOk(t) && Ascending(order) && forall x :: x in order ==> x in t
    ensures forall k :: k in TableFrom(EntriesIn(t, order)) <==> k in order
    ensures forall k :: k in order ==> TableFrom(EntriesIn(t, order))[k] == t[k]
  {
    if order != [] {
      var n := |order| - 1;
      var k := order[n];
      InitLast(order);
      hide Ascending, TableFrom, TableOk;
      EntriesTable(t, order[..n]);
      AddCell(EntriesIn(t, order[..n]), k, t[k]);
    }
  }

  /// Its length is the weight of the memtable.
  lemma {:induction false} EntriesWeight(t: Table, order: seq<nat>)
    requires Ascending(order) && forall k :: k in t <==> k in order
    ensures |EntriesIn(t, order)| == Weight(t)
  {
    if order != [] {
      var n := |order| - 1;
      var k := order[n];
      var t' := t - {k};
      WeightRemove(t, k);
      InitLast(order);
      EntriesWeight(t', order[..n]);
      EntriesAgree(t, t', order[..n]);
    } else {
      assert forall k :: k in t ==> k in order;
      assert t == map[];
    }
  }

  lemma {:induction false} EntriesAgree(t: Table, u: Table, order: seq<nat>)
    requires forall k :: k in order ==> k in t && k in u && t[k] == u[k]
    ensures EntriesIn(t, order) == EntriesIn(u, order)
  {
    if order != [] { EntriesAgree(t, u, order[..|order|-1]); }
  }
}
