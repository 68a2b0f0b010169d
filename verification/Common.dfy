/** Values shared by every layer: records, entries and the two address constants. */
module Common {
  datatype Option<+T> = None | Some(value: T)

  /// The "no such block" address (dm_jindisk.h:25).
  const INF_ADDR: nat := 0xFFFF_FFFF_FFFF_FFFF

  /// Index keys are 32-bit (memtable.h:15); a wider address is truncated to this many values.
  const KEY_SPACE: nat := 0x1_0000_0000

  /// The largest key is what INF_ADDR truncates to, so it never names a block.
  const MAX_KEY: nat := 0xFFFF_FFFF

  /// An index record: where the block is and the key that seals it.
  datatype Record = Record(pba: nat, key: nat)

  /// A record that says "absent" (lsm_tree.c:1371-1374).
  predicate Negative(r: Record) {
    r.pba == INF_ADDR
  }

  const TOMBSTONE: Record := Record(INF_ADDR, 0)

  datatype Entry = Entry(key: nat, rec: Record)

  newtype byte = x: int | 0 <= x < 256
  type Data = seq<byte>

  /// A sealed block: the symbolic form of AES-GCM over one data block.
  datatype Sealed = Sealed(key: nat, seqno: nat, plain: Data)

  /// Opening succeeds exactly with the key and sequence number used to seal.
  function Open(c: Sealed, key: nat, seqno: nat): Option<Data> {
    if c.key == key && c.seqno == seqno then Some(c.plain) else None
  }

  /// The offsets below `n`: a full bitmap of `n` bits.
  function Below(n: nat): (r: set<nat>)
    ensures |r| == n
    ensures forall o: nat :: o in r <==> o < n
  {
    if n == 0 then {} else Below(n - 1) + {n - 1}
  }
}
