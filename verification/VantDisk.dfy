/** The on-disk layout of VANTFS: a header block, four directory blocks, then two data blocks per slot. */
module VantDisk {
  import opened Base
  import opened FsSpec
  import opened FsTree
  import opened VantRecord

  const DISK_BLOCKS := 2048
  const DIRECTORY_START_BLOCK := 1
  const DIRECTORY_BLOCKS := 4
  const DATA_START_BLOCK := 5 // DIRECTORY_START_BLOCK + DIRECTORY_BLOCKS
  const RECORDS_PER_BLOCK := 8 // BLOCK_SIZE / ENTRY_SIZE
  const MAX_FILES := 32 // DIRECTORY_BLOCKS * RECORDS_PER_BLOCK
  const BLOCKS_PER_FILE := 2
  const ROOT: Inode := 1

  type Block = b: Bytes | |b| == BLOCK_SIZE witness Zeros(BLOCK_SIZE)

  const ZERO_BLOCK: Block := Zeros(BLOCK_SIZE)

  const BLANK: seq<Block> := seq<Block>(DISK_BLOCKS, i => ZERO_BLOCK)

  type Disk = d: seq<Block> | |d| == DISK_BLOCKS witness BLANK

  type BlockIndex = i: nat | i < DISK_BLOCKS

  type Slot = s: nat | s < MAX_FILES

  /** One atomic write of one block. */
  datatype BlockWrite = BlockWrite(index: BlockIndex, block: Block)

  function Apply(d: Disk, w: BlockWrite): Disk
  {
    d[w.index := w.block]
  }

  /** The disk after the writes `ws`, in order. */
  function Replay(d: Disk, ws: seq<BlockWrite>): Disk
  {
    if ws == [] then d else Apply(Replay(d, ws[..|ws| - 1]), ws[|ws| - 1])
  }

  lemma {:induction false} ReplayConcat(d: Disk, a: seq<BlockWrite>, b: seq<BlockWrite>)
    ensures Replay(d, a + b) == Replay(Replay(d, a), b)
  {
    if b == [] {
      assert a + b == a;
    } else {
      ReplayConcat(d, a, b[..|b| - 1]);
      assert (a + b)[..|a + b| - 1] == a + b[..|b| - 1];
    }
  }

  function DirectoryBlock(slot: Slot): BlockIndex
  {
    DIRECTORY_START_BLOCK + slot / RECORDS_PER_BLOCK
  }

  function RecordStart(slot: Slot): (start: nat)
    ensures start + ENTRY_SIZE <= BLOCK_SIZE
  {
    slot % RECORDS_PER_BLOCK * ENTRY_SIZE
  }

  function DataBlock(slot: Slot, fileBlock: nat): BlockIndex
    requires fileBlock < BLOCKS_PER_FILE
  {
    DATA_START_BLOCK + slot * BLOCKS_PER_FILE + fileBlock
  }

  /** Data blocks are told apart by slot and position, and never meet the header or the directory. */
  lemma DataBlocksApart(s: Slot, f: nat, s': Slot, f': nat)
    requires f < BLOCKS_PER_FILE && f' < BLOCKS_PER_FILE
    ensures DataBlock(s, f) == DataBlock(s', f') <==> s == s' && f == f'
    ensures DataBlock(s, f) > DirectoryBlock(s') > 0
  {
  }

  function RecordAt(d: Disk, slot: Slot): (r: Bytes)
    ensures |r| == ENTRY_SIZE
  {
    d[DirectoryBlock(slot)][RecordStart(slot)..RecordStart(slot) + ENTRY_SIZE]
  }

  /** The two data blocks of a slot, end to end. */
  function FileBytes(d: Disk, slot: Slot): (b: Bytes)
    ensures |b| == MAX_FILE_SIZE
  {
    var first: Bytes, second: Bytes := d[DataBlock(slot, 0)], d[DataBlock(slot, 1)];
    first + second
  }

  /** The single block write that replaces one record. */
  function RecordWrite(d: Disk, slot: Slot, record: Bytes): BlockWrite
    requires |record| == ENTRY_SIZE
  {
    BlockWrite(DirectoryBlock(slot), Patch(d[DirectoryBlock(slot)], RecordStart(slot), record))
  }

  /** Replacing a record changes that record and nothing else. */
  lemma RecordWriteEffect(d: Disk, slot: Slot, record: Bytes, s: Slot)
    requires |record| == ENTRY_SIZE
    ensures var d' := Apply(d, RecordWrite(d, slot, record));
            && RecordAt(d', s) == (if s == slot then record else RecordAt(d, s))
            && FileBytes(d', s) == FileBytes(d, s)
  {
    var w := RecordWrite(d, slot, record);
    var d' := Apply(d, w);
    DataBlocksApart(s, 0, slot, 0);
    DataBlocksApart(s, 1, slot, 0);
    if DirectoryBlock(s) == DirectoryBlock(slot) {
      var start := RecordStart(s);
      if s != slot { RecordsApart(s, slot); }
      assert RecordAt(d', s) == w.block[start..start + ENTRY_SIZE];
      forall i | 0 <= i < ENTRY_SIZE
        ensures RecordAt(d', s)[i] == (if s == slot then record else RecordAt(d, s))[i]
      {
        assert RecordAt(d', s)[i] == w.block[start + i];
      }
    }
  }

  lemma RecordsApart(s: Slot, s': Slot)
    requires s != s' && DirectoryBlock(s) == DirectoryBlock(s')
    ensures RecordStart(s) + ENTRY_SIZE <= RecordStart(s') || RecordStart(s') + ENTRY_SIZE <= RecordStart(s)
  {
  }

  /** A write to a data block of `slot`. */
  predicate TouchesOnlyData(w: BlockWrite, slot: Slot)
  {
    w.index == DataBlock(slot, 0) || w.index == DataBlock(slot, 1)
  }

  /** Writing a data block changes neither the directory nor any other slot's data. */
  lemma DataWriteEffect(d: Disk, slot: Slot, w: BlockWrite, s: Slot)
    requires TouchesOnlyData(w, slot)
    ensures RecordAt(Apply(d, w), s) == RecordAt(d, s)
    ensures s != slot ==> FileBytes(Apply(d, w), s) == FileBytes(d, s)
  {
    hide DataBlock, DirectoryBlock;
    DataBlocksApart(s, 0, slot, 0);
    DataBlocksApart(s, 0, slot, 1);
    DataBlocksApart(s, 1, slot, 0);
    DataBlocksApart(s, 1, slot, 1);
    DataBlocksApart(slot, 0, s, 0);
    DataBlocksApart(slot, 1, s, 0);
  }

  lemma {:induction false} DataWritesEffect(d: Disk, slot: Slot, ws: seq<BlockWrite>, s: Slot)
    requires forall i | 0 <= i < |ws| :: TouchesOnlyData(ws[i], slot)
    ensures RecordAt(Replay(d, ws), s) == RecordAt(d, s)
    ensures s != slot ==> FileBytes(Replay(d, ws), s) == FileBytes(d, s)
  {
    if ws != [] {
      DataWritesEffect(d, slot, ws[..|ws| - 1], s);
      DataWriteEffect(Replay(d, ws[..|ws| - 1]), slot, ws[|ws| - 1], s);
    }
  }

  /** Zeroing both data blocks of a slot. */
  function ClearWrites(slot: Slot): (ws: seq<BlockWrite>)
    ensures forall i | 0 <= i < |ws| :: TouchesOnlyData(ws[i], slot)
  {
    [BlockWrite(DataBlock(slot, 0), ZERO_BLOCK), BlockWrite(DataBlock(slot, 1), ZERO_BLOCK)]
  }

  lemma ClearEffect(d: Disk, slot: Slot)
    ensures FileBytes(Replay(d, ClearWrites(slot)), slot) == Zeros(MAX_FILE_SIZE)
  {
    var ws := ClearWrites(slot);
    assert ws[..1] == [ws[0]] && ws[..1][..0] == [];
    assert Replay(d, ws[..1]) == Apply(d, ws[0]);
    DataBlocksApart(slot, 0, slot, 1);
  }

  /** How many bytes of a transfer fall into the block at `absolute`. */
  function ChunkLen(absolute: nat, remaining: nat): (count: nat)
    ensures count <= remaining
    ensures remaining > 0 ==> count > 0
    ensures absolute % BLOCK_SIZE + count <= BLOCK_SIZE
  {
    Min(BLOCK_SIZE - absolute % BLOCK_SIZE, remaining)
  }

  /** The block write for the chunk of `source` that starts at `offset` within the file. */
  function ChunkWrite(d: Disk, slot: Slot, offset: nat, source: Bytes): (w: BlockWrite)
    requires offset + |source| <= MAX_FILE_SIZE && source != []
    ensures TouchesOnlyData(w, slot)
  {
    var count := ChunkLen(offset, |source|);
    var block := DataBlock(slot, offset / BLOCK_SIZE);
    BlockWrite(block, Patch(d[block], offset % BLOCK_SIZE, source[..count]))
  }

  /** All block writes of write_data, in order. */
  function DataWrites(d: Disk, slot: Slot, offset: nat, source: Bytes): (ws: seq<BlockWrite>)
    requires offset + |source| <= MAX_FILE_SIZE
    ensures forall i | 0 <= i < |ws| :: TouchesOnlyData(ws[i], slot)
    decreases |source|
  {
    if source == [] then []
    else
      var w := ChunkWrite(d, slot, offset, source);
      var count := ChunkLen(offset, |source|);
      [w] + DataWrites(Apply(d, w), slot, offset + count, source[count..])
  }

  lemma ChunkEffect(d: Disk, slot: Slot, offset: nat, source: Bytes)
    requires offset + |source| <= MAX_FILE_SIZE && source != []
    ensures var count := ChunkLen(offset, |source|);
            FileBytes(Apply(d, ChunkWrite(d, slot, offset, source)), slot)
            == Patch(FileBytes(d, slot), offset, source[..count])
  {
    hide Patch, DataBlock;
    var part := source[..ChunkLen(offset, |source|)];
    DataBlocksApart(slot, 0, slot, 1);
    var first, second := d[DataBlock(slot, 0)], d[DataBlock(slot, 1)];
    if offset < BLOCK_SIZE {
      PatchFirst(first, second, offset, part);
    } else {
      PatchSecond(first, second, offset - BLOCK_SIZE, part);
    }
  }

  lemma PatchFirst(a: Bytes, b: Bytes, at: nat, part: Bytes)
    requires at + |part| <= |a|
    ensures Patch(a, at, part) + b == Patch(a + b, at, part)
  {
  }

  lemma PatchSecond(a: Bytes, b: Bytes, at: nat, part: Bytes)
    requires at + |part| <= |b|
    ensures a + Patch(b, at, part) == Patch(a + b, |a| + at, part)
  {
  }

  lemma PatchConcat(s: Bytes, at: nat, a: Bytes, b: Bytes)
    requires at + |a| + |b| <= |s|
    ensures Patch(Patch(s, at, a), at + |a|, b) == Patch(s, at, a + b)
  {
  }

  /** The block-crossing write is one overwrite of the slot's 1024 bytes. */
  lemma {:induction false} DataWritesContents(d: Disk, slot: Slot, offset: nat, source: Bytes)
    requires offset + |source| <= MAX_FILE_SIZE
    ensures FileBytes(Replay(d, DataWrites(d, slot, offset, source)), slot) == Patch(FileBytes(d, slot), offset, source)
    decreases |source|
  {
    if source == [] {
      assert Patch(FileBytes(d, slot), offset, source) == FileBytes(d, slot);
    } else {
      var w := ChunkWrite(d, slot, offset, source);
      var count := ChunkLen(offset, |source|);
      var d1 := Apply(d, w);
      var rest := DataWrites(d1, slot, offset + count, source[count..]);
      ChunkEffect(d, slot, offset, source);
      DataWritesContents(d1, slot, offset + count, source[count..]);
      ReplayConcat(d, [w], rest);
      assert [w][..0] == [];
      assert Replay(d, [w]) == d1;
      PatchConcat(FileBytes(d, slot), offset, source[..count], source[count..]);
      assert source[..count] + source[count..] == source;
    }
  }
}
