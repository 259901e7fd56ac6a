/** Crash prefixes: block writes are atomic, and a crash stops an operation after any number of them. */
module VantCrash {
  import opened Base
  import opened FsSpec
  import opened FsTree
  import opened VantRecord
  import opened VantDisk
  import opened VantMount

  lemma TakePrefix(a: seq<BlockWrite>, b: seq<BlockWrite>, k: nat)
    requires k <= |a|
    ensures (a + b)[..k] == a[..k]
  {
  }

  /** A crash in create or mkdir: the old tree, with all contents, until the record is written. */
  lemma CrashInCreate(d: Disk, entries: Entries, t: Tree, s: Slot, e: DirectoryEntry, k: nat)
    requires Mounted(d, entries, t) && EntryOk(s, e) && e.len == 0 && entries[s].None?
    requires k <= |CreateWrites(d, s, e)|
    ensures var d' := Replay(d, CreateWrites(d, s, e)[..k]);
            if k < |CreateWrites(d, s, e)| then Mounted(d', entries, t)
            else Mounted(d', entries[s := Some(e)], t[s + 2 := Node(e.parent, e.Name(), Empty(e.fileType))])
  {
    var clears := if e.fileType == File then ClearWrites(s) else [];
    var w := RecordWrite(d, s, EncodeRecord(e));
    var all := CreateWrites(d, s, e);
    assert all == clears + [w];
    hide Mounted, Replay, EncodeRecord, RecordWrite, ClearWrites, CreateWrites, TouchesOnlyData;
    if k < |all| {
      TakePrefix(clears, [w], k);
      DataTouchedMounts(d, entries, t, s, clears[..k]);
    } else {
      TakeAll(all);
      if e.fileType == File { ClearEffect(d, s); }
      DataThenRecord(d, entries, t, s, clears, e);
      assert FileBytes(Replay(d, all), s)[..0] == [];
    }
  }

  /** A crash in unlink or rmdir: the old tree before the first write, the new one after it. */
  lemma CrashInRemove(d: Disk, entries: Entries, t: Tree, s: Slot, kind: FileType, k: nat)
    requires Mounted(d, entries, t) && k <= |RemoveWrites(d, s, kind)|
    ensures var d' := Replay(d, RemoveWrites(d, s, kind)[..k]);
            if k == 0 then Mounted(d', entries, t) else Mounted(d', entries[s := None], t - {s + 2})
  {
    if k > 0 {
      var w := RecordWrite(d, s, Zeros(ENTRY_SIZE));
      var clears := if kind == File then ClearWrites(s) else [];
      var all := RemoveWrites(d, s, kind);
      assert all == [w] + clears;
      assert all[..k] == [w] + clears[..k - 1];
      MountedButSlot(d, entries, t, s);
      hide Mounted, MountedBut, Replay, RecordWrite, ClearWrites, RemoveWrites, TouchesOnlyData;
      EntryErased(d, entries, t, s);
      ReplayConcat(d, [w], clears[..k - 1]);
      ReplayOne(d, w);
      DataTouchedMounts(Apply(d, w), entries[s := None], t - {s + 2}, s, clears[..k - 1]);
    }
  }

  /** rename is one block write, so there is nothing in between. */
  lemma CrashInRename(d: Disk, entries: Entries, t: Tree, s: Slot, e: DirectoryEntry, k: nat)
    requires Mounted(d, entries, t) && entries[s].Some? && EntryOk(s, e) && k <= |RelinkWrites(d, s, e)|
    requires e.fileType == entries[s].value.fileType && e.len == entries[s].value.len
    ensures var d' := Replay(d, RelinkWrites(d, s, e)[..k]);
            && s + 2 in t
            && if k == 0 then Mounted(d', entries, t)
               else Mounted(d', entries[s := Some(e)], t[s + 2 := Node(e.parent, e.Name(), t[s + 2].content)])
  {
    SlotFacts(d, entries, t, s);
    assert Replay(d, []) == d;
    hide Mounted, Replay, EncodeRecord, RecordWrite, FileBytes, Encodable;
    var all := RelinkWrites(d, s, e);
    if k == 0 {
      assert all[..0] == [];
    } else {
      assert all[..k] == [] + all;
      DataThenRecord(d, entries, t, s, [], e);
    }
  }

  /** How many bytes the first `k` block writes of a transfer of `n` bytes at `offset` carry. */
  function BytesAfter(offset: nat, n: nat, k: nat): (m: nat)
    ensures m <= n
    decreases n
  {
    if k == 0 || n == 0 then 0
    else
      var count := ChunkLen(offset, n);
      count + BytesAfter(offset + count, n - count, k - 1)
  }

  /** After `k` of its block writes, write_data has stored a prefix of the source. */
  lemma {:induction false} PartialDataWrites(d: Disk, s: Slot, offset: nat, source: Bytes, k: nat)
    requires offset + |source| <= MAX_FILE_SIZE && k <= |DataWrites(d, s, offset, source)|
    ensures FileBytes(Replay(d, DataWrites(d, s, offset, source)[..k]), s) ==
            Patch(FileBytes(d, s), offset, source[..BytesAfter(offset, |source|, k)])
    decreases |source|
  {
    hide Apply, FileBytes, ChunkWrite, ChunkLen, Patch;
    if k == 0 {
      NothingPatched(FileBytes(d, s), offset, source);
    } else {
      PartialUnfolds(d, s, offset, source, k);
      var count, w := ChunkLen(offset, |source|), ChunkWrite(d, s, offset, source);
      var rest := DataWrites(Apply(d, w), s, offset + count, source[count..]);
      PartialDataWrites(Apply(d, w), s, offset + count, source[count..], k - 1);
      PartialStep(d, s, offset, source, count, w, rest[..k - 1], BytesAfter(offset + count, |source| - count, k - 1));
    }
  }

  lemma NothingPatched(bytes: Bytes, offset: nat, source: Bytes)
    requires offset <= |bytes|
    ensures Patch(bytes, offset, source[..0]) == bytes
  {
  }

  lemma PartialStep(d: Disk, s: Slot, offset: nat, source: Bytes, count: nat, w: BlockWrite, rest: seq<BlockWrite>,
                    n: nat)
    requires offset + |source| <= MAX_FILE_SIZE && source != [] && count == ChunkLen(offset, |source|)
    requires w == ChunkWrite(d, s, offset, source) && count + n <= |source|
    requires FileBytes(Replay(Apply(d, w), rest), s) ==
               Patch(FileBytes(Apply(d, w), s), offset + count, source[count..][..n])
    ensures FileBytes(Replay(d, [w] + rest), s) == Patch(FileBytes(d, s), offset, source[..count + n])
  {
    hide *;
    ChunkEffect(d, s, offset, source);
    ReplayHead(d, w, rest);
    PatchTwice(FileBytes(d, s), offset, source, count, n);
  }

  lemma ReplayHead(d: Disk, w: BlockWrite, rest: seq<BlockWrite>)
    ensures Replay(d, [w] + rest) == Replay(Apply(d, w), rest)
  {
    ReplayConcat(d, [w], rest);
    ReplayOne(d, w);
  }

  lemma PatchTwice(bytes: Bytes, offset: nat, source: Bytes, count: nat, n: nat)
    requires count + n <= |source| && offset + |source| <= |bytes|
    ensures Patch(Patch(bytes, offset, source[..count]), offset + count, source[count..][..n]) ==
            Patch(bytes, offset, source[..count + n])
  {
    PatchConcat(bytes, offset, source[..count], source[count..][..n]);
    assert source[..count] + source[count..][..n] == source[..count + n];
  }

  /** The first block write and the bytes it carries. */
  lemma PartialUnfolds(d: Disk, s: Slot, offset: nat, source: Bytes, k: nat)
    requires offset + |source| <= MAX_FILE_SIZE && 0 < k <= |DataWrites(d, s, offset, source)|
    ensures source != []
    ensures var count, w := ChunkLen(offset, |source|), ChunkWrite(d, s, offset, source);
            var rest := DataWrites(Apply(d, w), s, offset + count, source[count..]);
            && |DataWrites(d, s, offset, source)| == |rest| + 1
            && DataWrites(d, s, offset, source)[..k] == [w] + rest[..k - 1]
            && BytesAfter(offset, |source|, k) == count + BytesAfter(offset + count, |source| - count, k - 1)
  {
    hide Apply, ChunkWrite, ChunkLen;
  }

  /** All block writes together carry the whole source. */
  lemma {:induction false} AllBytes(d: Disk, s: Slot, offset: nat, source: Bytes)
    requires offset + |source| <= MAX_FILE_SIZE
    ensures BytesAfter(offset, |source|, |DataWrites(d, s, offset, source)|) == |source|
    decreases |source|
  {
    if source != [] {
      var count := ChunkLen(offset, |source|);
      AllBytes(Apply(d, ChunkWrite(d, s, offset, source)), s, offset + count, source[count..]);
    }
  }

  /**
    A crash in a file write: until the record is written the directory is the old one, every other node is
    as before, and the file holds its old bytes with what the completed block writes carried over them.
   */
  lemma CrashInWrite(d: Disk, entries: Entries, t: Tree, s: Slot, e: DirectoryEntry,
                     offset: nat, source: Bytes, k: nat)
    requires Mounted(d, entries, t) && entries[s].Some? && entries[s].value.fileType == File
    requires EntryOk(s, e) && offset + |source| <= MAX_FILE_SIZE && k < |FileWrites(d, s, e, offset, source)|
    ensures var d' := Replay(d, FileWrites(d, s, e, offset, source)[..k]);
            && EntryOk(s, entries[s].value) && s + 2 in t
            && Mounted(d', entries, t[s + 2 := NodeFor(d', s, entries[s].value)])
            && FileBytes(d', s) == Patch(FileBytes(d, s), offset, source[..BytesAfter(offset, |source|, k)])
  {
    hide Mounted, Replay, EncodeRecord, RecordWrite, DataWrites, TouchesOnlyData, FileBytes, Patch, BytesAfter;
    var ws := DataWrites(d, s, offset, source);
    SlotFacts(d, entries, t, s);
    TakePrefix(ws, [RecordWrite(d, s, EncodeRecord(e))], k);
    DataTouchedMounts(d, entries, t, s, ws[..k]);
    PartialDataWrites(d, s, offset, source, k);
  }

  /** Whatever a crash left in a free slot, a file created there starts from zeroed data blocks. */
  lemma CreateStartsFromZero(d: Disk, s: Slot, e: DirectoryEntry)
    requires EntryOk(s, e) && e.fileType == File
    ensures FileBytes(Replay(d, CreateWrites(d, s, e)), s) == Zeros(MAX_FILE_SIZE)
  {
    var clears, w := ClearWrites(s), RecordWrite(d, s, EncodeRecord(e));
    ClearEffect(d, s);
    RecordWriteAfterData(d, s, clears, EncodeRecord(e));
    ReplayConcat(d, clears, [w]);
    ReplayOne(Replay(d, clears), w);
    RecordWriteEffect(Replay(d, clears), s, EncodeRecord(e), s);
  }

  // ----- Bytes past the end of file -----

  /** The disk after a crash that let `k` block writes of a file write through, the record not among them. */
  function Crashed(d: Disk, s: Slot, offset: nat, source: Bytes, k: nat): Disk
    requires offset + |source| <= MAX_FILE_SIZE && k <= |DataWrites(d, s, offset, source)|
  {
    Replay(d, DataWrites(d, s, offset, source)[..k])
  }

  /**
    What a crash before the record can break: after any number of data writes the zero tail is left exactly when
    the bytes they carried past the old end of file are all zero.
   */
  lemma TailAfterCrash(d: Disk, entries: Entries, s: Slot, offset: nat, source: Bytes, k: nat)
    requires ZeroTails(d, entries) && entries[s].Some? && entries[s].value.fileType == File
    requires offset + |source| <= MAX_FILE_SIZE && k <= |DataWrites(d, s, offset, source)|
    ensures ZeroTail(Crashed(d, s, offset, source, k), entries, s) <==>
            forall i | 0 <= i < BytesAfter(offset, |source|, k) && offset + i >= entries[s].value.len :: source[i] == 0
  {
    assert ZeroTail(d, entries, s);
    PartialDataWrites(d, s, offset, source, k);
    var m := BytesAfter(offset, |source|, k);
    hide Replay, DataWrites, FileBytes, BytesAfter;
    var was := FileBytes(d, s);
    var now := Patch(was, offset, source[..m]);
    assert forall i | 0 <= i < m :: now[offset + i] == source[i];
  }

  /**
    What that costs: on the disk left by the crash, a later write at `at` is the flat overwrite exactly when the
    bytes carried past the old end of file and before `at` are all zero. Otherwise the gap, which should read as
    zeros, holds what the interrupted write put there.
   */
  lemma StaleGapIff(d: Disk, entries: Entries, s: Slot, offset: nat, source: Bytes, k: nat, at: nat, more: Bytes)
    requires ZeroTails(d, entries) && entries[s].Some? && entries[s].value.fileType == File &&
               EntryOk(s, entries[s].value)
    requires offset + |source| <= MAX_FILE_SIZE && k <= |DataWrites(d, s, offset, source)| &&
               at + |more| <= MAX_FILE_SIZE
    ensures var len, m := entries[s].value.len, BytesAfter(offset, |source|, k);
            var bytes := FileBytes(Crashed(d, s, offset, source, k), s);
            && (Stored(bytes, len, at, more) == Overlay(bytes[..len], at, more) <==>
                  forall i | 0 <= i < m && len <= offset + i < at :: source[i] == 0)
            && (forall j | len <= j < at ::
                  Stored(bytes, len, at, more)[j] == if offset <= j < offset + m then source[j - offset] else 0)
  {
    assert ZeroTail(d, entries, s);
    PartialDataWrites(d, s, offset, source, k);
    var part := source[..BytesAfter(offset, |source|, k)];
    hide Replay, DataWrites, FileBytes, BytesAfter, Overlay, Stored;
    assert forall i | 0 <= i < |part| :: part[i] == source[i];
    StoredIff(FileBytes(Crashed(d, s, offset, source, k), s), entries[s].value.len, at, more);
    GapAfterPatch(FileBytes(d, s), entries[s].value.len, offset, part, at, more);
  }

  lemma GapAfterPatch(was: Bytes, len: nat, offset: nat, part: Bytes, at: nat, more: Bytes)
    requires len <= |was| && offset + |part| <= |was| && at + |more| <= |was|
    requires forall j | len <= j < |was| :: was[j] == 0
    ensures var bytes := Patch(was, offset, part);
            && (GapClear(bytes, len, at) <==> forall i | 0 <= i < |part| && len <= offset + i < at :: part[i] == 0)
            && forall j | len <= j < at ::
                 Stored(bytes, len, at, more)[j] == if offset <= j < offset + |part| then part[j - offset] else 0
  {
    var bytes := Patch(was, offset, part);
    assert forall i | 0 <= i < |part| :: bytes[offset + i] == part[i];
  }

  /**
    The concrete case: into an empty file one byte is written, the machine stops before the record, and a byte
    is then written two further on. The file holds the lost byte, then a zero, then the new byte.
   */
  lemma StaleByte(d: Disk, entries: Entries, s: Slot)
    requires ZeroTails(d, entries) && entries[s].Some? && entries[s].value.fileType == File
    requires EntryOk(s, entries[s].value) && entries[s].value.len == 0
    ensures |DataWrites(d, s, 0, [7])| == 1
    ensures var bytes := FileBytes(Crashed(d, s, 0, [7], 1), s);
            && !ZeroTail(Crashed(d, s, 0, [7], 1), entries, s)
            && Stored(bytes, 0, 2, [9]) == [7, 0, 9] && Overlay(bytes[..0], 2, [9]) == [0, 0, 9]
  {
    OneBlock(d, s);
    TailAfterCrash(d, entries, s, 0, [7], 1);
    StaleGapIff(d, entries, s, 0, [7], 1, 2, [9]);
    assert BytesAfter(0, 1, 1) == 1;
    var bytes := FileBytes(Crashed(d, s, 0, [7], 1), s);
    hide Crashed, DataWrites, FileBytes, BytesAfter, ZeroTail, ZeroTails;
    assert Stored(bytes, 0, 2, [9])[0] == 7 && Stored(bytes, 0, 2, [9])[1] == 0;
    assert Stored(bytes, 0, 2, [9]) == [7, 0, 9];
  }

  lemma OneBlock(d: Disk, s: Slot)
    ensures |DataWrites(d, s, 0, [7])| == 1
  {
    var source: Bytes := [7];
    assert ChunkLen(0, |source|) == 1 && source[1..] == [];
  }
}
