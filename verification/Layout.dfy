/** Where everything lies on the device (metadata.c:224-307, disk_structs.c:12-20, dm-jindisk.c:654-662). */
module Layout {
  import BitShape
  import opened Sizing

  // ---------------------------------------------------------------- disk arrays

  datatype DiskArray = DiskArray(start: nat, nr: nat, entrySize: nat) {
    predicate Valid() {
      1 <= entrySize <= METADATA_BLOCK_SIZE
    }

    function EntriesPerBlock(): (n: nat)
      requires Valid()
      ensures n >= 1 && n * entrySize <= METADATA_BLOCK_SIZE
    {
      EntriesPositive(entrySize, METADATA_BLOCK_SIZE);
      METADATA_BLOCK_SIZE / entrySize
    }

    /// disk_array_entry_block.
    function EntryBlock(i: nat): nat
      requires Valid()
    {
      start + i / EntriesPerBlock()
    }

    /// disk_array_entry_offset.
    function EntryOffset(i: nat): nat
      requires Valid()
    {
      (i % EntriesPerBlock()) * entrySize
    }
  }

  /// An entry lies within one block of the array's allotment.
  lemma {:induction false} EntryInside(a: DiskArray, i: nat)
    requires a.Valid() && i < a.nr
    ensures a.start <= a.EntryBlock(i) < a.start + DiskArrayBlocks(a.nr, a.entrySize, METADATA_BLOCK_SIZE)
    ensures a.EntryOffset(i) + a.entrySize <= METADATA_BLOCK_SIZE
  {
    var n := a.EntriesPerBlock();
    var r := i % n;
    DivMono(i, a.nr, n);
    OffsetApart(a.entrySize, r, n);
  }

  /// Distinct entries share no byte.
  lemma {:induction false} EntriesDisjoint(a: DiskArray, i: nat, j: nat)
    requires a.Valid() && i != j
    ensures a.EntryBlock(i) != a.EntryBlock(j) || a.EntryOffset(i) + a.entrySize <= a.EntryOffset(j)
            || a.EntryOffset(j) + a.entrySize <= a.EntryOffset(i)
  {
    var n := a.EntriesPerBlock();
    if a.EntryBlock(i) == a.EntryBlock(j) {
      assert n * (i / n) + i % n == i && n * (j / n) + j % n == j;
      OffsetApart(a.entrySize, i % n, j % n);
      OffsetApart(a.entrySize, j % n, i % n);
    }
  }

  lemma {:induction false} OffsetApart(e: nat, x: nat, y: nat)
    ensures x < y ==> x * e + e <= y * e
  {
    if x < y {
      BitShape.Scale(e, x + 1, y);
      assert x * e + e == e * (x + 1) && y * e == e * y;
    }
  }

  // ---------------------------------------------------------------- bit sets

  /// __disk_bitset_nr_group.
  function NrGroup(nrBit: nat): nat {
    if nrBit != 0 then (nrBit - 1) / BITS_PER_LONG + 1 else 0
  }

  /// A bit set of `nr` bits, kept as an array of words.
  function BitSet(start: nat, nr: nat): DiskArray {
    DiskArray(start, NrGroup(nr), 8)
  }

  /// Reading or changing a bit stays inside the blocks allotted to the set.
  lemma {:induction false} BitInside(start: nat, nr: nat, i: nat)
    requires i < nr
    ensures i / BITS_PER_LONG < NrGroup(nr)
    ensures start <= BitSet(start, nr).EntryBlock(i / BITS_PER_LONG) < start + SegValidityBlocks(nr)
  {
    DivMono(i, nr - 1, BITS_PER_LONG);
    assert BitSet(start, nr).EntriesPerBlock() == 512;
    DivMono(i / BITS_PER_LONG, (nr - 1) / BITS_PER_LONG, 512);
    var g := (nr - 1) / BITS_PER_LONG + 1;
    assert (g * 8 - 1) / METADATA_BLOCK_SIZE == (g - 1) / 512;
  }

  /// Formatting a bit set writes one block more than it is allotted exactly when its words fill their
  /// last block (disk_structs.c:88-122 against metadata.c:209-216).
  lemma {:induction false} FormatOverrun(nr: nat)
    requires nr >= 1
    ensures DiskArrayBlocks(NrGroup(nr), 8, METADATA_BLOCK_SIZE) ==
      SegValidityBlocks(nr) + if NrGroup(nr) % 512 == 0 then 1 else 0
  {
    var g := NrGroup(nr);
    assert METADATA_BLOCK_SIZE / 8 == 512;
    assert (g * 8 - 1) / METADATA_BLOCK_SIZE == (g - 1) / 512;
  }

  // ---------------------------------------------------------------- the regions

  datatype Superblock = Superblock(nrSegment: nat, indexStart: nat, journalStart: nat, svtStart: nat, dstStart: nat,
                                   ritStart: nat, catalogueStart: nat, dataStart: nat)

  /// superblock_init when formatting a device for `usable` data segments.
  function Format(usable: nat): Superblock {
    var nseg := usable + NR_GC_PRESERVED;
    var index := SuperblockBlocks();
    var journal := index + IndexRegionBlocks(nseg);
    var svt := journal + NR_JOURNAL_SEGMENT * BLOCKS_PER_SEGMENT;
    var dst := svt + SegValidityBlocks(nseg) * NR_CHECKPOINT_PACKS;
    var rit := dst + DataSegTableBlocks(nseg) * NR_CHECKPOINT_PACKS;
    var catalogue := rit + ReverseIndexBlocks(nseg * BLOCKS_PER_SEGMENT) * NR_CHECKPOINT_PACKS;
    var ids := FileIds(nseg);
    Superblock(nseg, index, journal, svt, dst, rit, catalogue,
               catalogue + (SegValidityBlocks(ids) + CatalogueBlocks(ids)) * NR_CHECKPOINT_PACKS)
  }

  datatype Region = Region(start: nat, blocks: nat)

  /// Every region and every checkpoint copy of a table, in order of position.
  function Regions(sb: Superblock): (rs: seq<Region>)
    ensures |rs| == 14
  {
    var n, ids := sb.nrSegment, FileIds(sb.nrSegment);
    var svt, dst := SegValidityBlocks(n), DataSegTableBlocks(n);
    var rit := ReverseIndexBlocks(n * BLOCKS_PER_SEGMENT);
    var bvt, stats := SegValidityBlocks(ids), CatalogueBlocks(ids);
    [Region(0, SuperblockBlocks()),
     Region(sb.indexStart, IndexRegionBlocks(n)),
     Region(sb.journalStart, NR_JOURNAL_SEGMENT * BLOCKS_PER_SEGMENT),
     Region(sb.svtStart, svt), Region(sb.svtStart + svt, svt),
     Region(sb.dstStart, dst), Region(sb.dstStart + dst, dst),
     Region(sb.ritStart, rit), Region(sb.ritStart + rit, rit),
     Region(sb.catalogueStart, bvt), Region(sb.catalogueStart + bvt, bvt),
     Region(sb.catalogueStart + bvt * NR_CHECKPOINT_PACKS, stats),
     Region(sb.catalogueStart + bvt * NR_CHECKPOINT_PACKS + stats, stats),
     Region(sb.dataStart, n * BLOCKS_PER_SEGMENT)]
  }

  ghost predicate Contiguous(rs: seq<Region>) {
    forall i :: 0 <= i < |rs| - 1 ==> rs[i].start + rs[i].blocks == rs[i+1].start
  }

  /// The regions follow each other without gap or overlap, and the data starts behind exactly as many
  /// blocks as calc_metadata_blocks says.
  lemma {:induction false} RegionsContiguous(usable: nat)
    ensures Contiguous(Regions(Format(usable)))
    ensures Format(usable).dataStart == MetadataBlocks(usable + NR_GC_PRESERVED)
  {
    hide IndexRegionBlocks, SegValidityBlocks, DataSegTableBlocks, ReverseIndexBlocks, CatalogueBlocks, FileIds, SuperblockBlocks;
  }

  /// Regions that follow each other are disjoint.
  lemma {:induction false} RegionsDisjoint(rs: seq<Region>, i: nat, j: nat)
    requires Contiguous(rs) && i < j < |rs|
    ensures rs[i].start + rs[i].blocks <= rs[j].start
  {
    if i + 1 < j { RegionsDisjoint(rs, i, j - 1); }
  }

  /// The tables as opened on one checkpoint copy: segment validity, data segments, reverse index,
  /// file validity, file statistics.  Their copies are regions 3 to 12.
  function Tables(sb: Superblock, second: bool): (ts: seq<DiskArray>)
    ensures |ts| == 5 && ts[0].Valid() && ts[1].Valid() && ts[2].Valid() && ts[3].Valid() && ts[4].Valid()
  {
    var n, ids := sb.nrSegment, FileIds(sb.nrSegment);
    var blocks := n * BLOCKS_PER_SEGMENT;
    [BitSet(sb.svtStart + Shift(second, SegValidityBlocks(n)), n),
     DiskArray(sb.dstStart + Shift(second, DataSegTableBlocks(n)), n, DST_ENTRY_SIZE),
     DiskArray(sb.ritStart + Shift(second, ReverseIndexBlocks(blocks)), blocks, RIT_ENTRY_SIZE),
     BitSet(sb.catalogueStart + Shift(second, SegValidityBlocks(ids)), ids),
     DiskArray(sb.catalogueStart + SegValidityBlocks(ids) * NR_CHECKPOINT_PACKS + Shift(second, CatalogueBlocks(ids)),
               ids, FILE_STAT_SIZE)]
  }

  /// Offset of a checkpoint copy: the valid field times the blocks of one copy.
  function Shift(second: bool, blocks: nat): nat {
    if second then blocks else 0
  }

  /// A word of a bit set stays inside the blocks allotted to the set.
  lemma {:induction false} WordInside(start: nat, nr: nat, g: nat)
    requires g < NrGroup(nr)
    ensures start <= BitSet(start, nr).EntryBlock(g) < start + SegValidityBlocks(nr)
  {
    assert g * BITS_PER_LONG < nr && g * BITS_PER_LONG / BITS_PER_LONG == g;
    BitInside(start, nr, g * BITS_PER_LONG);
  }

  /// The blocks of one checkpoint copy of each table.
  function Allotted(sb: Superblock, t: nat): nat {
    var n, ids := sb.nrSegment, FileIds(sb.nrSegment);
    if t == 0 then SegValidityBlocks(n)
    else if t == 1 then DataSegTableBlocks(n)
    else if t == 2 then ReverseIndexBlocks(n * BLOCKS_PER_SEGMENT)
    else if t == 3 then SegValidityBlocks(ids)
    else CatalogueBlocks(ids)
  }

  lemma {:induction false} TableRegion(sb: Superblock, second: bool, t: nat)
    requires t < 5
    ensures var r := Regions(sb)[3 + 2 * t + if second then 1 else 0];
      r.start == Tables(sb, second)[t].start && r.blocks == Allotted(sb, t)
  {
    hide SegValidityBlocks, DataSegTableBlocks, ReverseIndexBlocks, CatalogueBlocks, FileIds, IndexRegionBlocks, SuperblockBlocks;
    assert t == 0 || t == 1 || t == 2 || t == 3 || t == 4;
  }

  lemma {:induction false} AccessInside(sb: Superblock, second: bool, t: nat, i: nat)
    requires t < 5 && i < Tables(sb, second)[t].nr && Tables(sb, second)[t].Valid()
    ensures var a := Tables(sb, second)[t]; a.start <= a.EntryBlock(i) < a.start + Allotted(sb, t)
  {
    var a := Tables(sb, second)[t];
    var n, ids := sb.nrSegment, FileIds(sb.nrSegment);
    hide SegValidityBlocks, FileIds, DiskArrayBlocks, DiskArray.EntryBlock, NrGroup;
    if t == 0 {
      WordInside(a.start, n, i);
    } else if t == 3 {
      WordInside(a.start, ids, i);
    } else {
      EntryInside(a, i);
    }
  }

  lemma {:induction false} TablesValid(sb: Superblock, second: bool, t: nat)
    requires t < 5
    ensures Tables(sb, second)[t].Valid()
  {
    hide Tables;
    assert t == 0 || t == 1 || t == 2 || t == 3 || t == 4;
  }

  /// Every access to a table stays inside the checkpoint copy it was opened on.
  lemma {:induction false} TablesInside(sb: Superblock, second: bool, t: nat, i: nat)
    requires t < 5 && i < Tables(sb, second)[t].nr
    ensures Tables(sb, second)[t].Valid()
    ensures Within(Regions(sb)[3 + 2 * t + if second then 1 else 0], Tables(sb, second)[t].EntryBlock(i))
  {
    hide Tables, Regions, Allotted;
    TablesValid(sb, second, t);
    TableRegion(sb, second, t);
    AccessInside(sb, second, t, i);
  }

  predicate Within(r: Region, block: nat) {
    r.start <= block < r.start + r.blocks
  }

  // ---------------------------------------------------------------- index files

  /// First byte of the file with id `fd` (lsm_tree.c:1447-1449).
  function FileStart(sb: Superblock, fd: nat): nat {
    sb.indexStart * METADATA_BLOCK_SIZE + fd * BIT_SIZE
  }

  /// Files with different ids occupy disjoint bytes, all inside the index region.
  lemma {:induction false} FilesInside(usable: nat, fd: nat, other: nat)
    requires fd < FileIds(usable + NR_GC_PRESERVED)
    ensures var sb := Format(usable);
      && sb.indexStart * METADATA_BLOCK_SIZE <= FileStart(sb, fd)
      && FileStart(sb, fd) + BIT_SIZE <= sb.journalStart * METADATA_BLOCK_SIZE
      && (fd < other ==> FileStart(sb, fd) + BIT_SIZE <= FileStart(sb, other))
  {
    var ids := FileIds(usable + NR_GC_PRESERVED);
    assert IndexRegionBlocks(usable + NR_GC_PRESERVED) * METADATA_BLOCK_SIZE >= ids * BIT_SIZE;
    hide FileIds, IndexRegionBlocks, SegValidityBlocks, DiskArrayBlocks;
  }

  // ---------------------------------------------------------------- the constructor's check

  /// dm_jindisk_target_ctr: the sectors it asks of the raw device for a target of `len` sectors.
  function TotalSectors(len: nat): nat {
    MetadataBlocks(len / SECTORS_PER_SEGMENT + NR_GC_PRESERVED) * SECTORS_PER_BLOCK
      + len + NR_GC_PRESERVED * SECTORS_PER_SEGMENT
  }

  /// Passing the check puts the whole data region on the device.
  lemma {:induction false} DataOnDevice(len: nat, deviceSectors: nat)
    requires TotalSectors(len) <= deviceSectors
    ensures var sb := Format(len / SECTORS_PER_SEGMENT);
      (sb.dataStart + sb.nrSegment * BLOCKS_PER_SEGMENT) * SECTORS_PER_BLOCK <= deviceSectors
  {
    RegionsContiguous(len / SECTORS_PER_SEGMENT);
    hide MetadataBlocks, IndexRegionBlocks, SegValidityBlocks, DataSegTableBlocks, ReverseIndexBlocks, CatalogueBlocks, FileIds;
    assert len / SECTORS_PER_SEGMENT * SECTORS_PER_SEGMENT <= len;
  }

  /// A target of the size calc_avail_sectors computes passes the check.
  lemma {:induction false} AvailPasses(len: nat, deviceSectors: nat)
    requires len % SECTORS_PER_SEGMENT == 0 && Usable(deviceSectors, len / SECTORS_PER_SEGMENT)
    ensures TotalSectors(len) <= deviceSectors
  {
    hide MetadataBlocks;
  }
}
