/** Tables and bit sets on metadata blocks (disk_structs.c): entries packed into blocks, bits packed
into words.  Seen from outside, each is a plain sequence. */
module DiskStructs {
  import opened Common
  import opened Sizing
  import opened Layout

  type Block = seq<bv8>

  /// The array is inside the device, whose blocks all have the metadata block size.
  ghost predicate Placed(a: DiskArray, blocks: seq<Block>) {
    && a.Valid() && a.start + ArrayBlocks(a) <= |blocks|
    && forall b :: 0 <= b < |blocks| ==> |blocks[b]| == METADATA_BLOCK_SIZE
  }

  function ArrayBlocks(a: DiskArray): nat
    requires a.Valid()
  {
    DiskArrayBlocks(a.nr, a.entrySize, METADATA_BLOCK_SIZE)
  }

  /// The bytes of one entry.
  ghost function EntryAt(a: DiskArray, blocks: seq<Block>, i: nat): (r: seq<bv8>)
    requires Placed(a, blocks) && i < a.nr
    ensures |r| == a.entrySize
  {
    EntryInside(a, i);
    blocks[a.EntryBlock(i)][a.EntryOffset(i)..a.EntryOffset(i) + a.entrySize]
  }

  ghost function EntriesIn(a: DiskArray, blocks: seq<Block>): (r: seq<seq<bv8>>)
    requires Placed(a, blocks)
    ensures |r| == a.nr && forall i :: 0 <= i < a.nr ==> r[i] == EntryAt(a, blocks, i)
  {
    seq(a.nr, i requires 0 <= i < a.nr => EntryAt(a, blocks, i))
  }

  /// memcpy of an entry into a block.
  function Patched(b: Block, off: nat, entry: seq<bv8>): (r: Block)
    requires off + |entry| <= |b|
    ensures |r| == |b|
    ensures forall k :: 0 <= k < |b| ==> r[k] == if off <= k < off + |entry| then entry[k - off] else b[k]
  {
    b[..off] + entry + b[off + |entry|..]
  }

  lemma {:induction false} PatchedElsewhere(b: Block, off: nat, entry: seq<bv8>, lo: nat, hi: nat)
    requires off + |entry| <= |b| && lo <= hi <= |b| && (hi <= off || off + |entry| <= lo)
    ensures Patched(b, off, entry)[lo..hi] == b[lo..hi]
  {
  }

  lemma {:induction false} PatchedHere(b: Block, off: nat, entry: seq<bv8>)
    requires off + |entry| <= |b|
    ensures Patched(b, off, entry)[off..off + |entry|] == entry
  {
  }

  /// Writing one entry changes that entry and no other, and no block of another region.
  lemma {:induction false} SetOne(a: DiskArray, blocks: seq<Block>, index: nat, entry: seq<bv8>, i: nat)
    requires Placed(a, blocks) && index < a.nr && |entry| == a.entrySize && i < a.nr
    requires a.EntryBlock(index) < |blocks| && a.EntryOffset(index) + |entry| <= |blocks[a.EntryBlock(index)]|
    ensures var b := a.EntryBlock(index);
      var blocks' := blocks[b := Patched(blocks[b], a.EntryOffset(index), entry)];
      Placed(a, blocks') && EntryAt(a, blocks', i) == if i == index then entry else EntryAt(a, blocks, i)
  {
    var b := a.EntryBlock(index);
    EntryInside(a, index);
    EntryInside(a, i);
    PatchedHere(blocks[b], a.EntryOffset(index), entry);
    if i != index {
      EntriesDisjoint(a, i, index);
      if a.EntryBlock(i) == b {
        PatchedElsewhere(blocks[b], a.EntryOffset(index), entry, a.EntryOffset(i), a.EntryOffset(i) + a.entrySize);
      }
    }
  }

  class BlockDevice {
    var blocks: seq<Block>
  }

  class DiskTable {
    const at: DiskArray
    const dev: BlockDevice

    ghost predicate Valid()
      reads dev
    {
      Placed(at, dev.blocks)
    }

    ghost function Entries(): (r: seq<seq<bv8>>)
      requires Valid()
      reads dev
      ensures |r| == at.nr && forall i :: 0 <= i < |r| ==> |r[i]| == at.entrySize
    {
      EntriesIn(at, dev.blocks)
    }

    constructor (a: DiskArray, d: BlockDevice)
      requires Placed(a, d.blocks)
      ensures Valid() && at == a && dev == d
    {
      at, dev := a, d;
    }

    /// disk_array_set.
    method Set(index: nat, entry: seq<bv8>) returns (ok: bool)
      requires Valid() && |entry| == at.entrySize
      modifies dev
      ensures Valid() && ok == (index < at.nr)
      ensures Entries() == if ok then old(Entries())[index := entry] else old(Entries())
      ensures |dev.blocks| == |old(dev.blocks)|
      ensures forall b :: 0 <= b < |dev.blocks| && !(at.start <= b < at.start + ArrayBlocks(at)) ==>
        dev.blocks[b] == old(dev.blocks)[b]
    {
      if index >= at.nr { return false; }
      EntryInside(at, index);
      ghost var before := dev.blocks;
      forall i | 0 <= i < at.nr
        ensures var b := at.EntryBlock(index);
          var after := before[b := Patched(before[b], at.EntryOffset(index), entry)];
          Placed(at, after) && EntryAt(at, after, i) == if i == index then entry else EntryAt(at, before, i)
      {
        SetOne(at, before, index, entry, i);
      }
      var b := at.EntryBlock(index);
      dev.blocks := dev.blocks[b := Patched(dev.blocks[b], at.EntryOffset(index), entry)];
      assert Entries() == EntriesIn(at, before)[index := entry];
      ok := true;
    }

    /// disk_array_get.
    method Get(index: nat) returns (r: Option<seq<bv8>>)
      requires Valid()
      ensures r == if index < at.nr then Some(Entries()[index]) else None
    {
      if index >= at.nr { return None; }
      EntryInside(at, index);
      var off := at.EntryOffset(index);
      r := Some(dev.blocks[at.EntryBlock(index)][off..off + at.entrySize]);
    }

    /// disk_array_format: every allotted block is filled, and nothing else is touched.
    method Format(value: bool)
      requires Valid()
      modifies dev
      ensures Valid() && |dev.blocks| == |old(dev.blocks)|
      ensures forall i :: 0 <= i < at.nr ==> Entries()[i] == Filled(at.entrySize, value)
      ensures forall b :: 0 <= b < |dev.blocks| && !(at.start <= b < at.start + ArrayBlocks(at)) ==>
        dev.blocks[b] == old(dev.blocks)[b]
    {
      var shift := 0;
      while shift < ArrayBlocks(at)
        invariant shift <= ArrayBlocks(at) && Valid() && |dev.blocks| == |old(dev.blocks)|
        invariant forall b :: at.start <= b < at.start + shift ==> dev.blocks[b] == Filled(METADATA_BLOCK_SIZE, value)
        invariant forall b :: 0 <= b < |dev.blocks| && !(at.start <= b < at.start + shift) ==>
          dev.blocks[b] == old(dev.blocks)[b]
      {
        dev.blocks := dev.blocks[at.start + shift := Filled(METADATA_BLOCK_SIZE, value)];
        shift := shift + 1;
      }
      forall i | 0 <= i < at.nr ensures Entries()[i] == Filled(at.entrySize, value) {
        EntryInside(at, i);
        assert dev.blocks[at.EntryBlock(i)] == Filled(METADATA_BLOCK_SIZE, value);
      }
    }
  }

  /// memset with all bits clear or all bits set.
  function Filled(n: nat, value: bool): (r: seq<bv8>)
    ensures |r| == n && forall k :: 0 <= k < n ==> r[k] == if value then 0xff else 0
  {
    seq(n, k => if value then 0xff else 0)
  }

  // ---------------------------------------------------------------- bits of a word

  function Mask(k: nat): bv8 {
    if k == 0 then 1 else if k == 1 then 2 else if k == 2 then 4 else if k == 3 then 8
    else if k == 4 then 16 else if k == 5 then 32 else if k == 6 then 64 else 128
  }

  function ByteBit(x: bv8, k: nat): bool {
    x & Mask(k) != 0
  }

  function ByteWith(x: bv8, k: nat, v: bool): bv8 {
    if v then x | Mask(k) else x & !Mask(k)
  }

  lemma {:induction false} ByteBits(x: bv8, k: nat, v: bool, j: nat)
    requires k < 8 && j < 8
    ensures ByteBit(ByteWith(x, k, v), j) == if j == k then v else ByteBit(x, j)
  {
    if k != j { assert Mask(k) & Mask(j) == 0; }
  }

  /// test_bit on a little-endian 64-bit word.
  function WordBit(w: seq<bv8>, o: nat): bool
    requires |w| == 8 && o < BITS_PER_LONG
  {
    ByteBit(w[o / 8], o % 8)
  }

  /// set_bit or clear_bit.
  function WordWith(w: seq<bv8>, o: nat, v: bool): (r: seq<bv8>)
    requires |w| == 8 && o < BITS_PER_LONG
    ensures |r| == 8
  {
    w[o / 8 := ByteWith(w[o / 8], o % 8, v)]
  }

  lemma {:induction false} WordBits(w: seq<bv8>, o: nat, v: bool, j: nat)
    requires |w| == 8 && o < BITS_PER_LONG && j < BITS_PER_LONG
    ensures WordBit(WordWith(w, o, v), j) == if j == o then v else WordBit(w, j)
  {
    ByteBits(w[o / 8], o % 8, v, j % 8);
    hide ByteBit, ByteWith;
  }

  // ---------------------------------------------------------------- bit sets

  /// The bit set that words stand for.
  ghost function BitsOf(words: seq<seq<bv8>>, nr: nat): (r: seq<bool>)
    requires |words| == NrGroup(nr) && forall g :: 0 <= g < |words| ==> |words[g]| == 8
    ensures |r| == nr
  {
    seq(nr, i requires 0 <= i < nr => (GroupIn(nr, i); WordBit(words[i / BITS_PER_LONG], i % BITS_PER_LONG)))
  }

  lemma {:induction false} GroupIn(nr: nat, i: nat)
    requires i < nr
    ensures i / BITS_PER_LONG < NrGroup(nr)
  {
    BitInside(0, nr, i);
  }

  /// Changing one bit of one word changes one bit of the set.
  lemma {:induction false} OneBit(words: seq<seq<bv8>>, nr: nat, index: nat, v: bool)
    requires |words| == NrGroup(nr) && index < nr && forall g :: 0 <= g < |words| ==> |words[g]| == 8
    ensures index / BITS_PER_LONG < |words|
    ensures var g := index / BITS_PER_LONG;
      BitsOf(words[g := WordWith(words[g], index % BITS_PER_LONG, v)], nr) == BitsOf(words, nr)[index := v]
  {
    GroupIn(nr, index);
    var g, o := index / BITS_PER_LONG, index % BITS_PER_LONG;
    var words' := words[g := WordWith(words[g], o, v)];
    forall i | 0 <= i < nr ensures BitsOf(words', nr)[i] == BitsOf(words, nr)[index := v][i] {
      GroupIn(nr, i);
      if i / BITS_PER_LONG == g { WordBits(words[g], o, v, i % BITS_PER_LONG); }
    }
  }

  class DiskBitset {
    const nr: nat
    const words: DiskTable

    ghost predicate Valid()
      reads words.dev
    {
      words.Valid() && words.at == BitSet(words.at.start, nr)
    }

    ghost function Bits(): (r: seq<bool>)
      requires Valid()
      reads words.dev
      ensures |r| == nr
    {
      BitsOf(words.Entries(), nr)
    }

    constructor (n: nat, start: nat, dev: BlockDevice)
      requires Placed(BitSet(start, n), dev.blocks)
      ensures Valid() && nr == n && words.dev == dev && words.at.start == start
    {
      nr := n;
      words := new DiskTable(BitSet(start, n), dev);
    }

    /// __disk_bitset_operate: read a word, change a bit, write the word back.
    method Operate(index: nat, on: bool) returns (ok: bool)
      requires Valid()
      modifies words.dev
      ensures Valid() && ok == (index < nr)
      ensures Bits() == if ok then old(Bits())[index := on] else old(Bits())
      ensures |words.dev.blocks| == |old(words.dev.blocks)|
      ensures forall b :: 0 <= b < |words.dev.blocks| && !(words.at.start <= b < words.at.start + ArrayBlocks(words.at)) ==>
        words.dev.blocks[b] == old(words.dev.blocks)[b]
    {
      if index >= nr { return false; }
      OneBit(words.Entries(), nr, index, on);
      var group := words.Get(index / BITS_PER_LONG);
      ok := words.Set(index / BITS_PER_LONG, WordWith(group.value, index % BITS_PER_LONG, on));
    }

    /// disk_bitset_get.  It checks the word, not the bit: an index past the end that falls into the last
    /// word is answered from the padding.
    method Get(index: nat) returns (r: Option<bool>)
      requires Valid()
      ensures index < nr ==> r == Some(Bits()[index])
      ensures r.Some? <==> index / BITS_PER_LONG < NrGroup(nr)
    {
      if index < nr { GroupIn(nr, index); }
      var group := words.Get(index / BITS_PER_LONG);
      if group.None? { return None; }
      r := Some(WordBit(group.value, index % BITS_PER_LONG));
    }

    /// disk_bitset_format.
    method Format(value: bool)
      requires Valid()
      modifies words.dev
      ensures Valid() && forall i :: 0 <= i < nr ==> Bits()[i] == value
      ensures |words.dev.blocks| == |old(words.dev.blocks)|
      ensures forall b :: 0 <= b < |words.dev.blocks| && !(words.at.start <= b < words.at.start + ArrayBlocks(words.at)) ==>
        words.dev.blocks[b] == old(words.dev.blocks)[b]
    {
      words.Format(value);
      forall i | 0 <= i < nr ensures Bits()[i] == value {
        GroupIn(nr, i);
        FilledBit(i % BITS_PER_LONG, value);
      }
    }
  }

  lemma {:induction false} FilledBit(o: nat, value: bool)
    requires o < BITS_PER_LONG
    ensures WordBit(Filled(8, value), o) == value
  {
    var m := Mask(o % 8);
    assert m != 0 && 0xff & m == m && 0 & m == 0;
  }
}
