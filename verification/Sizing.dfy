/** On-disk sizes and the search for the usable size of a device (metadata.c:148-222, 1268-1330). */
module Sizing {
  import BitShape

  const SECTORS_PER_BLOCK: nat := 8
  const BLOCKS_PER_SEGMENT: nat := 1024
  const SECTORS_PER_SEGMENT: nat := 8192
  const METADATA_BLOCK_SIZE: nat := 4096
  const BITS_PER_LONG: nat := 64
  const NR_GC_PRESERVED: nat := 320
  const NR_JOURNAL_SEGMENT: nat := 16
  const NR_CHECKPOINT_PACKS: nat := 2
  const NR_DISK_LEVEL: nat := 2
  const COMMON_RATIO: nat := 10
  const FILE_CAPACITY: nat := 131072
  const BIT_SIZE: nat := 5815513
  /// Packed structure sizes: superblock, data segment entry, reverse index entry, file statistics.
  const SUPERBLOCK_SIZE: nat := 216
  const DST_ENTRY_SIZE: nat := 136
  const RIT_ENTRY_SIZE: nat := 8
  const FILE_STAT_SIZE: nat := 88

  // ---------------------------------------------------------------- block counts

  function BytesToBlock(bytes: nat, blockSize: nat): nat
    requires blockSize >= 1
  {
    if bytes == 0 then 0 else (bytes - 1) / blockSize + 1
  }

  function DiskArrayBlocks(nr: nat, elemSize: nat, blockSize: nat): nat
    requires elemSize <= blockSize
  {
    if elemSize == 0 then 0 else (EntriesPositive(elemSize, blockSize); nr / (blockSize / elemSize) + 1)
  }

  lemma {:induction false} EntriesPositive(e: nat, b: nat)
    requires 1 <= e <= b
    ensures b / e >= 1 && (b / e) * e <= b
  {
    var q, m := b / e, b % e;
    assert e * q + m == b;
    assert q == 0 ==> e * q == 0;
  }

  function FileCount(capacity: nat): nat {
    if capacity != 0 then (capacity - 1) / FILE_CAPACITY + 1 else 0
  }

  /// Files for a level: enough for its records, and one fewer would not do.
  lemma {:induction false} FilesExact(capacity: nat, m: nat)
    ensures m * FILE_CAPACITY >= capacity <==> m >= FileCount(capacity)
  {
    if capacity != 0 { CeilExact(capacity, FILE_CAPACITY, m); }
  }

  /// The rounded-up quotient is the least number of units that hold `n`.
  lemma {:induction false} CeilExact(n: nat, unit: nat, m: nat)
    requires n >= 1 && unit >= 1
    ensures m * unit >= n <==> m >= (n - 1) / unit + 1
  {
    var q := (n - 1) / unit;
    assert unit * q + (n - 1) % unit == n - 1;
    if m >= q + 1 { BitShape.Scale(unit, q + 1, m); } else { BitShape.Scale(unit, m, q); }
  }

  lemma {:induction false} BytesExact(bytes: nat, blockSize: nat, b: nat)
    requires blockSize >= 1
    ensures b * blockSize >= bytes <==> b >= BytesToBlock(bytes, blockSize)
  {
    if bytes != 0 { CeilExact(bytes, blockSize, b); }
  }

  /// A table takes the fewest blocks that hold one more entry than it has, each block as many whole entries
  /// as fit: a block too many exactly when the entries fill their last block.
  lemma {:induction false} ArrayExact(nr: nat, elemSize: nat, blockSize: nat, b: nat)
    requires 1 <= elemSize <= blockSize
    ensures b * (blockSize / elemSize) > nr <==> b >= DiskArrayBlocks(nr, elemSize, blockSize)
  {
    EntriesPositive(elemSize, blockSize);
    CeilExact(nr + 1, blockSize / elemSize, b);
  }

  /// The capacity of the next level up.
  function Smaller(capacity: nat, ratio: nat): nat
    requires ratio >= 1
  {
    capacity / ratio
  }

  function LevelFiles(nrLevel: nat, ratio: nat, capacity: nat): nat
    requires ratio >= 1
  {
    if nrLevel <= 1 then 0 else FileCount(capacity) + LevelFiles(nrLevel - 1, ratio, Smaller(capacity, ratio))
  }

  /// Files of all levels: level 0 has one.
  function TotalBit(nrLevel: nat, ratio: nat, capacity: nat): nat
    requires ratio >= 1
  {
    LevelFiles(nrLevel, ratio, capacity) + 1
  }

  lemma {:induction false} LevelStep(n: nat, ratio: nat, cap: nat)
    requires ratio >= 1 && n >= 2
    ensures LevelFiles(n, ratio, cap) == FileCount(cap) + LevelFiles(n - 1, ratio, Smaller(cap, ratio))
  {
  }

  /// __total_bit.
  method CalcTotalBit(nrLevel: nat, ratio: nat, capacity: nat) returns (total: nat)
    requires ratio >= 1
    ensures total == TotalBit(nrLevel, ratio, capacity)
  {
    hide *;
    total := 0;
    var cap: nat, i: nat := capacity, 1;
    while i < nrLevel
      invariant i >= 1 && (i <= nrLevel || i == 1)
      invariant i <= nrLevel ==> total + LevelFiles(nrLevel - i + 1, ratio, cap) == LevelFiles(nrLevel, ratio, capacity)
      invariant i > nrLevel ==> total == 0
    {
      LevelStep(nrLevel - i + 1, ratio, cap);
      total := total + FileCount(cap);
      cap := Smaller(cap, ratio);
      i := i + 1;
    }
    LevelEnd(1, ratio, cap);
    LevelEnd(0, ratio, capacity);
    TotalIs(nrLevel, ratio, capacity);
    total := total + 1;
  }

  lemma {:induction false} LevelEnd(n: nat, ratio: nat, cap: nat)
    requires ratio >= 1 && n <= 1
    ensures LevelFiles(n, ratio, cap) == 0
  {
  }

  lemma {:induction false} TotalIs(n: nat, ratio: nat, cap: nat)
    requires ratio >= 1
    ensures TotalBit(n, ratio, cap) == LevelFiles(n, ratio, cap) + 1
  {
  }

  function ExtraBit(capacity: nat): nat {
    TotalBit(2, COMMON_RATIO, capacity)
  }

  /// Ids of index files for a device of `nseg` segments.
  function FileIds(nseg: nat): nat {
    TotalBit(NR_DISK_LEVEL, COMMON_RATIO, nseg * BLOCKS_PER_SEGMENT) + ExtraBit(nseg * BLOCKS_PER_SEGMENT)
  }

  /// The most files of one level (metadata.c:1193-1195).
  function MaxLevelFiles(nseg: nat): nat {
    TotalBit(2, COMMON_RATIO, nseg * BLOCKS_PER_SEGMENT)
  }

  /// There are ids for twice the files of a level, and a level has one file more than the records of all
  /// blocks need: with level 1 at `m` files there is an id for it, for the file of level 0, and for as many new ones,
  /// exactly when `m` files are not fewer than those records need.
  lemma {:induction false} FileIdsExact(nseg: nat, m: nat)
    ensures FileIds(nseg) == 2 * MaxLevelFiles(nseg) && MaxLevelFiles(nseg) >= 1
    ensures (MaxLevelFiles(nseg) - 1) * FILE_CAPACITY >= nseg * BLOCKS_PER_SEGMENT
    ensures m * FILE_CAPACITY >= nseg * BLOCKS_PER_SEGMENT <==> 2 * (m + 1) >= FileIds(nseg)
  {
    var records := nseg * BLOCKS_PER_SEGMENT;
    FilesExact(records, m);
    FilesExact(records, FileCount(records));
    LevelStep(2, COMMON_RATIO, records);
    LevelEnd(1, COMMON_RATIO, Smaller(records, COMMON_RATIO));
    hide FileCount;
  }

  /// Records of all levels below level 0, each level `ratio` times smaller than the next.
  function Capacities(nrLevel: nat, ratio: nat, capacity: nat): nat
    requires ratio >= 1
  {
    if nrLevel <= 1 then 0 else capacity + Capacities(nrLevel - 1, ratio, Smaller(capacity, ratio))
  }

  /// The files of all levels hold a record for everything the levels may hold, and less than one file a
  /// level is wasted.
  lemma {:induction false} TotalHolds(nrLevel: nat, ratio: nat, capacity: nat)
    requires ratio >= 1 && nrLevel >= 2
    ensures var files := TotalBit(nrLevel, ratio, capacity) - 1; var records := Capacities(nrLevel, ratio, capacity);
      records <= files * FILE_CAPACITY < records + (nrLevel - 1) * FILE_CAPACITY
  {
    FilesExact(capacity, FileCount(capacity));
    if FileCount(capacity) > 0 { FilesExact(capacity, FileCount(capacity) - 1); }
    if nrLevel > 2 {
      TotalHolds(nrLevel - 1, ratio, Smaller(capacity, ratio));
    } else {
      LevelEnd(1, ratio, Smaller(capacity, ratio));
    }
    hide FileCount, Smaller;
  }

  function IndexRegionBlocks(nseg: nat): nat {
    BytesToBlock(FileIds(nseg) * BIT_SIZE, METADATA_BLOCK_SIZE)
  }

  function SegValidityBlocks(nr: nat): nat {
    if nr == 0 then 0 else (((nr - 1) / BITS_PER_LONG + 1) * 8 - 1) / METADATA_BLOCK_SIZE + 1
  }

  /// The words of the bits fill that many blocks, and no fewer do.
  lemma {:induction false} ValidityExact(nr: nat, b: nat)
    ensures b * (METADATA_BLOCK_SIZE * 8) >= nr <==> b >= SegValidityBlocks(nr)
  {
    if nr != 0 {
      CeilExact(nr, BITS_PER_LONG, b * 512);
      CeilExact(((nr - 1) / BITS_PER_LONG + 1) * 8, METADATA_BLOCK_SIZE, b);
    }
  }

  function DataSegTableBlocks(nseg: nat): nat {
    DiskArrayBlocks(nseg, DST_ENTRY_SIZE, METADATA_BLOCK_SIZE)
  }

  function ReverseIndexBlocks(nrBlock: nat): nat {
    DiskArrayBlocks(nrBlock, RIT_ENTRY_SIZE, METADATA_BLOCK_SIZE)
  }

  function CatalogueBlocks(nrFd: nat): nat {
    DiskArrayBlocks(nrFd, FILE_STAT_SIZE, METADATA_BLOCK_SIZE)
  }

  function SuperblockBlocks(): nat {
    BytesToBlock(SUPERBLOCK_SIZE, METADATA_BLOCK_SIZE)
  }

  /// calc_metadata_blocks.
  function MetadataBlocks(nseg: nat): nat {
    SuperblockBlocks() + IndexRegionBlocks(nseg) + NR_JOURNAL_SEGMENT * BLOCKS_PER_SEGMENT
    + SegValidityBlocks(nseg) * NR_CHECKPOINT_PACKS
    + DataSegTableBlocks(nseg) * NR_CHECKPOINT_PACKS
    + ReverseIndexBlocks(nseg * BLOCKS_PER_SEGMENT) * NR_CHECKPOINT_PACKS
    + SegValidityBlocks(FileIds(nseg)) * NR_CHECKPOINT_PACKS
    + CatalogueBlocks(FileIds(nseg)) * NR_CHECKPOINT_PACKS
  }

  // ---------------------------------------------------------------- metadata grows with the device

  lemma {:induction false} DivMono(a: nat, b: nat, d: nat)
    requires a <= b && d >= 1
    ensures a / d <= b / d
  {
    var p, q := a / d, b / d;
    assert d * p + a % d == a && d * q + b % d == b;
    BitShape.Scale(d, q + 1, if p > q then p else q + 1);
    assert d * (q + 1) == d * q + d;
  }

  lemma {:induction false} FileIdsMono(a: nat, b: nat)
    requires a <= b
    ensures FileIds(a) <= FileIds(b)
  {
    assert LevelFiles(1, COMMON_RATIO, Smaller(a * 1024, 10)) == 0 && LevelFiles(1, COMMON_RATIO, Smaller(b * 1024, 10)) == 0;
    if a > 0 { DivMono(a * 1024 - 1, b * 1024 - 1, FILE_CAPACITY); }
  }

  lemma {:induction false} ArrayMono(a: nat, b: nat, e: nat)
    requires a <= b && 1 <= e <= METADATA_BLOCK_SIZE
    ensures DiskArrayBlocks(a, e, METADATA_BLOCK_SIZE) <= DiskArrayBlocks(b, e, METADATA_BLOCK_SIZE)
  {
    EntriesPositive(e, METADATA_BLOCK_SIZE);
    DivMono(a, b, METADATA_BLOCK_SIZE / e);
  }

  lemma {:induction false} ValidityMono(a: nat, b: nat)
    requires a <= b
    ensures SegValidityBlocks(a) <= SegValidityBlocks(b)
  {
    if a > 0 {
      DivMono(a - 1, b - 1, BITS_PER_LONG);
      DivMono(((a - 1) / BITS_PER_LONG + 1) * 8 - 1, ((b - 1) / BITS_PER_LONG + 1) * 8 - 1, METADATA_BLOCK_SIZE);
    }
  }

  lemma {:induction false} BytesMono(a: nat, b: nat)
    requires a <= b
    ensures BytesToBlock(a, METADATA_BLOCK_SIZE) <= BytesToBlock(b, METADATA_BLOCK_SIZE)
  {
    if a > 0 { DivMono(a - 1, b - 1, METADATA_BLOCK_SIZE); }
  }

  /// A larger device never needs less metadata.
  lemma {:induction false} MetadataMono(a: nat, b: nat)
    requires a <= b
    ensures MetadataBlocks(a) <= MetadataBlocks(b)
  {
    hide FileIds, BytesToBlock, DiskArrayBlocks, SegValidityBlocks;
    FileIdsMono(a, b);
    BytesMono(FileIds(a) * BIT_SIZE, FileIds(b) * BIT_SIZE);
    ValidityMono(a, b);
    ValidityMono(FileIds(a), FileIds(b));
    ArrayMono(a, b, DST_ENTRY_SIZE);
    ArrayMono(a * BLOCKS_PER_SEGMENT, b * BLOCKS_PER_SEGMENT, RIT_ENTRY_SIZE);
    ArrayMono(FileIds(a), FileIds(b), FILE_STAT_SIZE);
  }

  /// Metadata takes at least sixteen segments, and one more for every sixty-four.
  lemma {:induction false} MetadataAtLeast(n: nat)
    ensures MetadataBlocks(n) >= BLOCKS_PER_SEGMENT * (NR_JOURNAL_SEGMENT + n / 64)
  {
    assert IndexRegionBlocks(n) >= BLOCKS_PER_SEGMENT * (n / 64) by {
      assert LevelFiles(1, COMMON_RATIO, Smaller(n * 1024, 10)) == 0;
      assert FileCount(n * 1024) >= n / 128;
      assert FileIds(n) >= 2 * (n / 128 + 1);
      assert FileIds(n) * BIT_SIZE >= 2 * (n / 128 + 1) * 5815513;
    }
    hide IndexRegionBlocks, FileIds, DiskArrayBlocks, SegValidityBlocks, BytesToBlock;
  }

  const WORD: nat := 0x1_0000_0000_0000_0000

  /// For devices below 2^58 sectors no product of the computation reaches 2^64.
  lemma {:induction false} NoWrap(n: nat)
    requires n <= 0x2000_0000_0000 + NR_GC_PRESERVED
    ensures n * BLOCKS_PER_SEGMENT < WORD && FileIds(n) * BIT_SIZE < WORD
    ensures MetadataBlocks(n) * SECTORS_PER_BLOCK < WORD
  {
    IdsSmall(n);
    IndexSmall(FileIds(n));
    ArraySmall(n, DST_ENTRY_SIZE);
    ArraySmall(n * BLOCKS_PER_SEGMENT, RIT_ENTRY_SIZE);
    ArraySmall(FileIds(n), FILE_STAT_SIZE);
    ValiditySmall(n);
    ValiditySmall(FileIds(n));
    hide FileIds, DiskArrayBlocks, BytesToBlock, SegValidityBlocks;
    OneSuperblock();
  }

  lemma {:induction false} OneSuperblock()
    ensures SuperblockBlocks() == 1
  {
  }

  lemma {:induction false} IdsSmall(n: nat)
    requires n <= 0x2000_0000_0000 + NR_GC_PRESERVED
    ensures FileIds(n) <= 0x80_0000_0100
  {
    assert LevelFiles(1, COMMON_RATIO, Smaller(n * 1024, 10)) == 0;
    assert FileIds(n) <= 2 * (n / 128 + 2);
  }

  lemma {:induction false} ValiditySmall(n: nat)
    ensures SegValidityBlocks(n) <= n + 1
  {
  }

  lemma {:induction false} ArraySmall(n: nat, e: nat)
    requires 1 <= e <= METADATA_BLOCK_SIZE
    ensures DiskArrayBlocks(n, e, METADATA_BLOCK_SIZE) <= n + 1
  {
    EntriesPositive(e, METADATA_BLOCK_SIZE);
    var d := METADATA_BLOCK_SIZE / e;
    var q := n / d;
    assert d * q + n % d == n;
    BitShape.Scale(q, 1, d);
  }

  lemma {:induction false} IndexSmall(ids: nat)
    ensures BytesToBlock(ids * BIT_SIZE, METADATA_BLOCK_SIZE) <= ids * 1420
  {
  }

  // ---------------------------------------------------------------- the usable size

  /// `p` usable segments fit: with the metadata of a device of p + 320 segments, in `room` sectors.
  predicate Fits(room: nat, p: nat) {
    p * SECTORS_PER_SEGMENT <= room &&
    MetadataBlocks(p + NR_GC_PRESERVED) * SECTORS_PER_BLOCK <= room - p * SECTORS_PER_SEGMENT
  }

  lemma {:induction false} FitsDown(room: nat, p: nat, q: nat)
    requires Fits(room, q) && p <= q
    ensures Fits(room, p)
  {
    MetadataMono(p + NR_GC_PRESERVED, q + NR_GC_PRESERVED);
    hide MetadataBlocks;
  }

  /// Nothing fits next to the end: k + 1 segments are too few for the metadata.
  lemma {:induction false} NotNearEnd(room: nat, k: nat, p: nat)
    requires BitShape.Pow(2, k + 1) <= room / SECTORS_PER_SEGMENT
    requires p + k + 1 >= room / SECTORS_PER_SEGMENT
    ensures !Fits(room, p)
  {
    var d, w := room / SECTORS_PER_SEGMENT, BitShape.Pow(2, k);
    MetadataAtLeast(p + NR_GC_PRESERVED);
    LogBound(k);
    BitShape.PowGrows(2, k);
    assert BitShape.Pow(2, k + 1) == 2 * w;
    assert room < (d + 1) * SECTORS_PER_SEGMENT;
    hide BitShape.Pow, MetadataBlocks;
    TooMuch(room, d, w, k, p, MetadataBlocks(p + NR_GC_PRESERVED));
  }

  lemma {:induction false} TooMuch(room: nat, d: nat, w: nat, k: nat, p: nat, meta: nat)
    requires 2 * w <= d && w > k && p + k + 1 >= d && room < (d + 1) * SECTORS_PER_SEGMENT
    requires 16 + w / 64 >= k + 3 && meta >= BLOCKS_PER_SEGMENT * (NR_JOURNAL_SEGMENT + (p + NR_GC_PRESERVED) / 64)
    ensures p * SECTORS_PER_SEGMENT + meta * SECTORS_PER_BLOCK > room
  {
    assert p + NR_GC_PRESERVED >= w;
    assert (p + NR_GC_PRESERVED) / 64 >= w / 64;
  }

  lemma {:induction false} LogBound(k: nat)
    ensures 16 + BitShape.Pow(2, k) / 64 >= k + 3
  {
    if k >= 14 {
      assert BitShape.Pow(2, k) == 64 * BitShape.Pow(2, k - 6) by { SixHalvings(k - 6); }
      BitShape.PowGrows(2, k - 6);
    }
  }

  lemma {:induction false} SixHalvings(j: nat)
    ensures BitShape.Pow(2, j + 6) == 64 * BitShape.Pow(2, j)
  {
    assert BitShape.Pow(2, j + 1) == 2 * BitShape.Pow(2, j);
    assert BitShape.Pow(2, j + 2) == 2 * BitShape.Pow(2, j + 1);
    assert BitShape.Pow(2, j + 3) == 2 * BitShape.Pow(2, j + 2);
    assert BitShape.Pow(2, j + 4) == 2 * BitShape.Pow(2, j + 3);
    assert BitShape.Pow(2, j + 5) == 2 * BitShape.Pow(2, j + 4);
    assert BitShape.Pow(2, j + 6) == 2 * BitShape.Pow(2, j + 5);
  }

  // ---------------------------------------------------------------- the probing search

  /// The step is at most d / 2^(k+1).
  predicate Halved(d: nat, k: nat, step: nat) {
    BitShape.Pow(2, k + 1) * step <= d
  }

  lemma {:induction false} HalvedBounds(d: nat, k: nat, step: nat)
    requires Halved(d, k, step) && step >= 1
    ensures BitShape.Pow(2, k + 1) <= d && step <= d
  {
    BitShape.PowMono(2, 0, k + 1);
    BitShape.Scale(step, 1, BitShape.Pow(2, k + 1));
    BitShape.Scale(BitShape.Pow(2, k + 1), 1, step);
  }

  lemma {:induction false} HalvedNext(d: nat, k: nat, step: nat)
    requires Halved(d, k, step)
    ensures Halved(d, k + 1, step / 2)
  {
    var q := BitShape.Pow(2, k + 1);
    assert BitShape.Pow(2, k + 2) == 2 * q;
    hide BitShape.Pow;
    BitShape.Scale(q, 2 * (step / 2), step);
    assert 2 * q * (step / 2) == q * (2 * (step / 2));
  }

  /// Stage k of the search, in segments: `step` is the k-th halving of `d`.  Either the search is
  /// still within k + 1 segments of what an exact halving leaves, or every fitting size is at
  /// least a step away from the end, so no probe can pass it.
  ghost predicate Stage(room: nat, d: nat, k: nat, avail: nat, step: nat, taken: bool) {
    && d == room / SECTORS_PER_SEGMENT && avail <= d && Halved(d, k, step)
    && (avail > 0 ==> Fits(room, avail))
    && (Close(d, k, avail, step, taken) || Away(room, d, step))
  }

  /// What is left is two steps, or one after a success, and at most k + 1 segments more.
  predicate Close(d: nat, k: nat, avail: nat, step: nat, taken: bool) {
    if taken then step <= d - avail <= step + k + 1 else 2 * step <= d - avail <= 2 * step + k + 1
  }

  ghost predicate Away(room: nat, d: nat, step: nat) {
    forall p: nat :: Fits(room, p) ==> p + step <= d
  }

  /// A probe never passes the end of the device.
  lemma {:induction false} ProbeInside(room: nat, d: nat, k: nat, avail: nat, step: nat, taken: bool)
    requires Stage(room, d, k, avail, step, taken) && step >= 1
    ensures avail + step <= d && (avail + step) * SECTORS_PER_SEGMENT <= room
  {
    HalvedBounds(d, k, step);
    hide Fits, Halved;
    assert d * SECTORS_PER_SEGMENT <= room;
  }

  /// A fitting probe becomes the new size; near the end it cannot be the second one of its stage.
  lemma {:induction false} ProbeFits(room: nat, d: nat, k: nat, avail: nat, step: nat, taken: bool)
    requires Stage(room, d, k, avail, step, taken) && step >= 1 && Fits(room, avail + step)
    ensures Stage(room, d, k, avail + step, step, true)
  {
    ProbeInside(room, d, k, avail, step, taken);
    HalvedBounds(d, k, step);
    SecondTooClose(room, d, k, avail, step);
    hide Fits, Halved, Away;
  }

  lemma {:induction false} SecondTooClose(room: nat, d: nat, k: nat, avail: nat, step: nat)
    requires d == room / SECTORS_PER_SEGMENT && BitShape.Pow(2, k + 1) <= d
    ensures Close(d, k, avail, step, true) ==> !Fits(room, avail + step)
  {
    if Close(d, k, avail, step, true) { NotNearEnd(room, k, avail + step); }
  }

  /// A probe that does not fit halves the step.
  lemma {:induction false} ProbeFails(room: nat, d: nat, k: nat, avail: nat, step: nat, taken: bool)
    requires Stage(room, d, k, avail, step, taken) && step >= 1 && !Fits(room, avail + step)
    ensures Stage(room, d, k + 1, avail, step / 2, false)
  {
    hide Fits, Halved, Away;
    HalvedNext(d, k, step);
    AllBelow(room, avail + step);
    FarEnough(room, d, avail, step);
    AwayHalf(room, d, step);
  }

  lemma {:induction false} FarEnough(room: nat, d: nat, avail: nat, step: nat)
    requires forall p: nat :: Fits(room, p) ==> p < avail + step
    ensures avail + 2 * step <= d ==> Away(room, d, step)
  {
    hide Fits;
  }

  lemma {:induction false} AwayHalf(room: nat, d: nat, step: nat)
    requires step >= 0
    ensures Away(room, d, step) ==> Away(room, d, step / 2)
  {
    hide Fits;
  }

  lemma {:induction false} AllBelow(room: nat, q: nat)
    requires !Fits(room, q)
    ensures forall p: nat :: Fits(room, p) ==> p < q
  {
    forall p: nat | Fits(room, p) ensures p < q {
      Either(room, p, q);
    }
  }

  lemma {:induction false} Either(room: nat, p: nat, q: nat)
    ensures Fits(room, p) && !Fits(room, q) ==> p < q
  {
    if Fits(room, p) && p >= q { FitsDown(room, q, p); }
  }

  /// `p` segments of data, the metadata for them and the preserved segments fit the device.
  predicate Usable(sectors: nat, p: nat) {
    p * SECTORS_PER_SEGMENT + MetadataBlocks(p + NR_GC_PRESERVED) * SECTORS_PER_BLOCK
      + NR_GC_PRESERVED * SECTORS_PER_SEGMENT <= sectors
  }

  /// calc_avail_sectors.  The result is a whole number of segments; it fits together with its
  /// metadata and the preserved segments, and no larger number of segments does.
  method CalcAvailSectors(sectors: nat) returns (avail: nat)
    requires sectors < 0x400_0000_0000_0000
    ensures avail % SECTORS_PER_SEGMENT == 0
    ensures avail > 0 ==> Usable(sectors, avail / SECTORS_PER_SEGMENT)
    ensures forall p: nat :: p > avail / SECTORS_PER_SEGMENT ==> !Usable(sectors, p)
  {
    hide MetadataBlocks, Stage, Fits, Usable, FileIds, Close, Away, Halved, BitShape.Pow;
    if sectors < NR_GC_PRESERVED * SECTORS_PER_SEGMENT {
      TooSmall(sectors);
      return 0;
    }
    var room := sectors - NR_GC_PRESERVED * SECTORS_PER_SEGMENT;
    avail := 0;
    var step: nat := (room / 2) / SECTORS_PER_SEGMENT;
    ghost var d: nat, k: nat, n: nat, taken := room / SECTORS_PER_SEGMENT, 0, 0, false;
    FirstStage(room, d, step);
    while avail < room && step != 0
      invariant avail == n * SECTORS_PER_SEGMENT && Stage(room, d, k, n, step, taken)
      invariant step == 0 ==> !Fits(room, n + 1)
      invariant n <= d && avail <= room
      decreases step, d - n
    {
      ProbeInside(room, d, k, n, step, taken);
      var probe := avail + step * SECTORS_PER_SEGMENT;
      var total := probe / SECTORS_PER_SEGMENT + NR_GC_PRESERVED;
      assert probe == (n + step) * SECTORS_PER_SEGMENT && probe / SECTORS_PER_SEGMENT == n + step;
      NoWrap(total);
      FitsIs(room, n + step);
      var meta := MetadataBlocks(total) * SECTORS_PER_BLOCK;
      if meta <= room - probe {
        ProbeFits(room, d, k, n, step, taken);
        avail, n, taken := probe, n + step, true;
      } else {
        ProbeFails(room, d, k, n, step, taken);
        step, k, taken := step / 2, k + 1, false;
      }
    }
    Outcome(room, d, k, n, step, taken);
    forall p: nat ensures Usable(sectors, p) <==> Fits(room, p) { UsableFits(sectors, room, p); }
  }

  lemma {:induction false} TooSmall(sectors: nat)
    requires sectors < NR_GC_PRESERVED * SECTORS_PER_SEGMENT
    ensures forall p: nat :: !Usable(sectors, p)
  {
    hide MetadataBlocks;
  }

  lemma {:induction false} UsableFits(sectors: nat, room: nat, p: nat)
    requires sectors == room + NR_GC_PRESERVED * SECTORS_PER_SEGMENT
    ensures Usable(sectors, p) <==> Fits(room, p)
  {
  }

  lemma {:induction false} FirstStage(room: nat, d: nat, step: nat)
    requires d == room / SECTORS_PER_SEGMENT && step == (room / 2) / SECTORS_PER_SEGMENT
    ensures Stage(room, d, 0, 0, step, false) && (step == 0 ==> !Fits(room, 1))
  {
    assert BitShape.Pow(2, 1) == 2;
    assert step == d / 2;
    MetadataAtLeast(1 + NR_GC_PRESERVED);
    hide MetadataBlocks;
  }

  lemma {:induction false} FitsIs(room: nat, p: nat)
    requires p * SECTORS_PER_SEGMENT <= room
    ensures Fits(room, p) <==> MetadataBlocks(p + NR_GC_PRESERVED) * SECTORS_PER_BLOCK <= room - p * SECTORS_PER_SEGMENT
  {
  }

  lemma {:induction false} Outcome(room: nat, d: nat, k: nat, n: nat, step: nat, taken: bool)
    requires Stage(room, d, k, n, step, taken) && (step == 0 ==> !Fits(room, n + 1))
    requires n * SECTORS_PER_SEGMENT >= room || step == 0
    ensures n > 0 ==> Fits(room, n)
    ensures forall p: nat :: p > n ==> !Fits(room, p)
  {
    if step == 0 {
      AllBelow(room, n + 1);
    }
    hide MetadataBlocks, Halved, Close, Away;
  }
}
