/** The write-back segment pool: a ring of buffers with a cursor and a queue of full ones. */
module SegmentBuffer {
  import opened Common
  import opened Engine

  /// Ring slot of the buffer that is `a` rotations old.
  function Slot(cur: nat, n: nat, a: nat): (i: nat)
    requires cur < n && a < n
    ensures i < n
  {
    if a <= cur then cur - a else cur + n - a
  }

  lemma {:induction false} ModOnce(x: nat, n: nat)
    requires 0 < n && x < 2 * n
    ensures x % n == if x < n then x else x - n
  {
  }

  /// The slot that follows the current one holds the oldest buffer.
  function Next(cur: nat, n: nat): (i: nat)
    requires cur < n
    ensures i < n && i == Slot(cur, n, n - 1)
  {
    if cur + 1 == n then 0 else cur + 1
  }

  /// One rotation makes every buffer one rotation older.
  lemma {:induction false} SlotOlder(cur: nat, n: nat, a: nat)
    requires cur < n && 0 < a < n
    ensures Slot(Next(cur, n), n, a) == Slot(cur, n, a - 1) != Next(cur, n)
    ensures Slot(Next(cur, n), n, 0) == Next(cur, n)
  {
  }

  lemma {:induction false} QueueRotated(queue: seq<nat>, cur: nat, n: nat)
    requires n >= 2 && cur < n && |queue| + 1 < n && forall j :: 0 <= j < |queue| ==> queue[j] == Slot(cur, n, |queue| - j)
    ensures Next(cur, n) == if cur + 1 < n then cur + 1 else 0
    ensures var q := queue + [cur]; forall j :: 0 <= j < |q| ==> q[j] == Slot(Next(cur, n), n, |q| - j)
  {
    var q := queue + [cur];
    forall j | 0 <= j < |q| ensures q[j] == Slot(Next(cur, n), n, |q| - j) {
      SlotOlder(cur, n, |q| - j);
      assert j == |queue| ==> Slot(cur, n, 0) == cur;
    }
  }

  /// The ring after the next slot is recycled, newest buffer first.
  lemma {:induction false} RingRotated(ring: seq<Buf>, bufs: seq<Buf>, cur: nat, newKey: nat)
    requires cur < |ring| == |bufs| && |ring| >= 2
    requires forall a :: 0 <= a < |ring| ==> bufs[a] == ring[Slot(cur, |ring|, a)]
    ensures |RotatePool(bufs, newKey)| == |ring|
    ensures var n := |ring|; var r := ring[Next(cur, n) := Buf(newKey, map[])];
      forall a :: 0 <= a < n ==> RotatePool(bufs, newKey)[a] == r[Slot(Next(cur, n), n, a)]
  {
    var n := |ring|;
    var r := ring[Next(cur, n) := Buf(newKey, map[])];
    forall a | 0 <= a < n ensures RotatePool(bufs, newKey)[a] == r[Slot(Next(cur, n), n, a)] {
      if a > 0 { SlotOlder(cur, n, a); }
    }
  }

  class SegmentBuffer {
    const bps: nat
    const buffer: array<Buf>
    var cur: nat
    var queue: seq<nat>

    ghost predicate Valid()
      reads this, buffer
    {
      && bps >= 1 && buffer.Length >= 2 && cur < buffer.Length && |queue| < buffer.Length
      && forall j :: 0 <= j < |queue| ==> queue[j] == Slot(cur, buffer.Length, |queue| - j)
    }

    /// The pool newest buffer first.
    ghost function Aged(): (p: Pool)
      requires Valid()
      reads this, buffer
      ensures |p.bufs| == buffer.Length && p.pending == |queue|
      ensures forall a :: 0 <= a < buffer.Length ==> p.bufs[a] == buffer[Slot(cur, buffer.Length, a)]
    {
      Pool(seq(buffer.Length, a requires 0 <= a < buffer.Length reads this, buffer
                                requires cur < buffer.Length => buffer[Slot(cur, buffer.Length, a)]),
           |queue|)
    }

    constructor (b: nat, slots: nat, key: nat)
      requires b >= 1 && slots >= 2
      ensures Valid() && fresh(buffer) && bps == b && buffer.Length == slots
      ensures Aged() == Pool(seq(slots, i => Buf(key, map[])), 0)
    {
      bps := b;
      buffer := new Buf[slots](i => Buf(key, map[]));
      cur := 0;
      queue := [];
    }

    /// segbuf_query_block: the newest copy in the pool.
    method QueryBlock(lba: nat) returns (r: Option<Data>)
      requires Valid()
      ensures r == Query(Aged().bufs, lba)
    {
      var n := buffer.Length;
      ghost var bufs := Aged().bufs;
      for i := 0 to n
        invariant Query(bufs, lba) == Query(bufs[i..], lba)
      {
        var index := (cur + n - i) % n;
        ModOnce(cur + n - i, n);
        assert buffer[index] == bufs[i];
        if lba in buffer[index].blocks {
          return Some(buffer[index].blocks[lba]);
        }
        assert bufs[i..][1..] == bufs[i+1..];
      }
      r := None;
    }

    /// The block goes into the current buffer, over an older copy of its lba if there is one.
    method Store(lba: nat, d: Data)
      requires Valid()
      modifies buffer
      ensures Valid()
      ensures Aged() == old(Aged()).(bufs := [Fill(old(Aged()).bufs[0], lba, d)] + old(Aged()).bufs[1..])
    {
      ghost var p := Aged();
      var n := buffer.Length;
      buffer[cur] := Fill(buffer[cur], lba, d);
      ghost var bufs := [Fill(p.bufs[0], lba, d)] + p.bufs[1..];
      assert forall a :: 0 <= a < n ==> buffer[Slot(cur, n, a)] == bufs[a];
      assert Aged().bufs == bufs;
    }

    /// The full buffer is queued and the next slot of the ring recycled.
    method Rotate(newKey: nat)
      requires Valid() && |queue| + 1 < buffer.Length
      modifies this`cur, this`queue, buffer
      ensures Valid()
      ensures Aged() == Pool(RotatePool(old(Aged()).bufs, newKey), old(Aged()).pending + 1)
    {
      ghost var bufs, c0, ring := Aged().bufs, cur, buffer[..];
      var n := buffer.Length;
      QueueRotated(queue, c0, n);
      RingRotated(ring, bufs, c0, newKey);
      ModOnce(c0 + 1, n);
      queue := queue + [cur];
      cur := (cur + 1) % n;
      buffer[cur] := Buf(newKey, map[]);
      hide Slot, Next, RotatePool;
      assert buffer[..] == ring[Next(c0, n) := Buf(newKey, map[])];
      assert Aged().bufs == RotatePool(bufs, newKey);
    }

    /// segbuf_push_block.  A block from the garbage collector is dropped when any buffer has its lba.
    method PushBlock(lba: nat, d: Data, fromUser: bool, newKey: nat)
      requires Valid()
      requires fromUser || Query(Aged().bufs, lba).None? ==> RoomToRotate(bps, Aged(), lba, d)
      modifies this`cur, this`queue, buffer
      ensures Valid()
      ensures Aged() == if fromUser || Query(old(Aged()).bufs, lba).None?
        then PushPool(bps, old(Aged()), lba, d, newKey) else old(Aged())
    {
      if !fromUser {
        var q := QueryBlock(lba);
        if q.Some? { return; }
      }
      Store(lba, d);
      assert Aged().bufs[0] == buffer[Slot(cur, buffer.Length, 0)];
      if |buffer[cur].blocks| >= bps {
        Rotate(newKey);
      }
    }

    /// The front of the queue names the oldest full buffer.
    lemma {:induction false} FrontIs()
      requires Valid() && queue != []
      ensures queue[0] < buffer.Length && buffer[queue[0]] == Aged().bufs[Aged().pending]
      ensures 0 < Aged().pending < |Aged().bufs|
    {
    }

    /// bufferio_handler: the oldest full buffer leaves the queue once it is written out.
    method Dequeue() returns (index: nat)
      requires Valid() && queue != []
      modifies this`queue
      ensures Valid()
      ensures index < buffer.Length && buffer[index] == old(Aged()).bufs[old(Aged()).pending]
      ensures Aged() == old(Aged()).(pending := old(Aged()).pending - 1)
    {
      index := queue[0];
      queue := queue[1..];
      assert Aged().bufs == old(Aged()).bufs;
    }
  }
}
