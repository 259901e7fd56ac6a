/** How the blocks of a VANTFS volume stand for an inode tree, and what each block write does to that tree. */
module VantMount {
  import opened Base
  import opened PathText
  import opened FsSpec
  import opened FsTree
  import opened VantRecord
  import opened VantDisk

  type Entries = seq<Option<DirectoryEntry>>

  /** An entry a volume written by this file system holds in slot `s`. */
  predicate EntryOk(s: Slot, e: DirectoryEntry)
  {
    e.slot == s && e.inode == s + 2 && Encodable(e) && e.len <= MAX_FILE_SIZE
  }

  /** Inode `i` has its entry in the directory. */
  predicate OnDisk(entries: Entries, i: Inode)
  {
    && |entries| == MAX_FILES && 2 <= i < MAX_FILES + 2
    && entries[i - 2].Some? && EntryOk(i - 2, entries[i - 2].value)
  }

  function NodeFor(d: Disk, s: Slot, e: DirectoryEntry): Node
    requires EntryOk(s, e)
  {
    Node(e.parent, e.Name(), if e.fileType == Directory then Dir else Data(FileBytes(d, s)[..e.len]))
  }

  ghost predicate SlotMounted(d: Disk, entries: Entries, t: Tree, s: Slot)
    requires |entries| == MAX_FILES
  {
    && DecodeRecord(s, RecordAt(d, s)) == Ok(entries[s])
    && (entries[s].None? ==> s + 2 !in t)
    && (entries[s].Some? ==> EntryOk(s, entries[s].value) && s + 2 in t && t[s + 2] == NodeFor(d, s, entries[s].value))
  }

  /** The directory decodes to `entries`, and entries and data blocks together are the tree `t`. */
  ghost predicate Mounted(d: Disk, entries: Entries, t: Tree)
  {
    && |entries| == MAX_FILES
    && (forall s: Slot {:trigger SlotMounted(d, entries, t, s)} :: SlotMounted(d, entries, t, s))
    && (forall i | i in t :: 2 <= i < MAX_FILES + 2)
  }

  /** Mounted in every slot but `s`. */
  ghost predicate MountedBut(d: Disk, entries: Entries, t: Tree, s: Slot)
  {
    && |entries| == MAX_FILES
    && (forall x: Slot {:trigger SlotMounted(d, entries, t, x)} | x != s :: SlotMounted(d, entries, t, x))
    && (forall i | i in t :: 2 <= i < MAX_FILES + 2)
  }

  ghost predicate ZeroTail(d: Disk, entries: Entries, s: Slot)
    requires |entries| == MAX_FILES
  {
    entries[s].Some? && entries[s].value.fileType == File ==>
      forall i | entries[s].value.len <= i < MAX_FILE_SIZE :: FileBytes(d, s)[i] == 0
  }

  /** Past its end of file every file's data is zero: what makes gaps read as zero. */
  ghost predicate ZeroTails(d: Disk, entries: Entries)
  {
    && |entries| == MAX_FILES
    && (forall s: Slot {:trigger ZeroTail(d, entries, s)} :: ZeroTail(d, entries, s))
  }

  lemma SlotFacts(d: Disk, entries: Entries, t: Tree, s: Slot)
    requires Mounted(d, entries, t)
    ensures DecodeRecord(s, RecordAt(d, s)) == Ok(entries[s])
    ensures entries[s].None? <==> s + 2 !in t
    ensures entries[s].Some? ==> EntryOk(s, entries[s].value) && t[s + 2] == NodeFor(d, s, entries[s].value)
  {
    assert SlotMounted(d, entries, t, s);
  }

  lemma MountedButSlot(d: Disk, entries: Entries, t: Tree, s: Slot)
    requires Mounted(d, entries, t)
    ensures MountedBut(d, entries, t, s)
  {
  }

  /** Writing the record of one entry puts that entry, and nothing else, into the tree. */
  lemma EntryPut(d: Disk, entries: Entries, t: Tree, s: Slot, e: DirectoryEntry)
    requires MountedBut(d, entries, t, s) && EntryOk(s, e)
    ensures var d' := Apply(d, RecordWrite(d, s, EncodeRecord(e)));
            Mounted(d', entries[s := Some(e)], t[s + 2 := NodeFor(d, s, e)])
  {
    hide RecordAt, FileBytes, DecodeRecord, EncodeRecord, RecordWrite, Apply;
    var d' := Apply(d, RecordWrite(d, s, EncodeRecord(e)));
    var entries', t' := entries[s := Some(e)], t[s + 2 := NodeFor(d, s, e)];
    forall x: Slot ensures SlotMounted(d', entries', t', x) {
      if x == s {
        PutHere(d, s, e);
      } else {
        assert SlotMounted(d, entries, t, x);
        RecordWriteEffect(d, s, EncodeRecord(e), x);
      }
    }
  }

  /** The record just written decodes to its entry, with the data it had. */
  lemma PutHere(d: Disk, s: Slot, e: DirectoryEntry)
    requires EntryOk(s, e)
    ensures var d' := Apply(d, RecordWrite(d, s, EncodeRecord(e)));
            DecodeRecord(s, RecordAt(d', s)) == Ok(Some(e)) && NodeFor(d', s, e) == NodeFor(d, s, e)
  {
    hide RecordAt, FileBytes, DecodeRecord, EncodeRecord, RecordWrite, Apply;
    RecordWriteEffect(d, s, EncodeRecord(e), s);
    RecordRoundTrip(e);
  }

  /** Zeroing a record takes its entry, and nothing else, out of the tree. */
  lemma EntryErased(d: Disk, entries: Entries, t: Tree, s: Slot)
    requires MountedBut(d, entries, t, s)
    ensures Mounted(Apply(d, RecordWrite(d, s, Zeros(ENTRY_SIZE))), entries[s := None], t - {s + 2})
  {
    hide RecordAt, FileBytes, RecordWrite, Apply;
    var d' := Apply(d, RecordWrite(d, s, Zeros(ENTRY_SIZE)));
    var entries', t' := entries[s := None], t - {s + 2};
    forall x: Slot ensures SlotMounted(d', entries', t', x) {
      if x != s { assert SlotMounted(d, entries, t, x); }
      RecordWriteEffect(d, s, Zeros(ENTRY_SIZE), x);
    }
  }

  /** Record writes leave all data as it was. */
  lemma RecordKeepsTails(d: Disk, entries: Entries, s: Slot, record: Bytes, entry: Option<DirectoryEntry>)
    requires ZeroTails(d, entries) && |record| == ENTRY_SIZE
    requires ZeroTail(d, entries[s := entry], s)
    ensures ZeroTails(Apply(d, RecordWrite(d, s, record)), entries[s := entry])
  {
    var d', entries' := Apply(d, RecordWrite(d, s, record)), entries[s := entry];
    forall x: Slot ensures ZeroTail(d', entries', x) {
      RecordWriteEffect(d, s, record, x);
      assert ZeroTail(d, entries, x);
    }
  }

  /** Data writes to one slot keep the directory and the content of every other slot. */
  lemma DataTouched(d: Disk, entries: Entries, t: Tree, s: Slot, ws: seq<BlockWrite>)
    requires Mounted(d, entries, t)
    requires forall i | 0 <= i < |ws| :: TouchesOnlyData(ws[i], s)
    ensures MountedBut(Replay(d, ws), entries, t, s)
    ensures DecodeRecord(s, RecordAt(Replay(d, ws), s)) == Ok(entries[s])
  {
    var d' := Replay(d, ws);
    SlotFacts(d, entries, t, s);
    DataWritesEffect(d, s, ws, s);
    hide RecordAt, FileBytes, DecodeRecord, Replay;
    forall x: Slot | x != s ensures SlotMounted(d', entries, t, x) {
      SlotFacts(d, entries, t, x);
      DataWritesEffect(d, s, ws, x);
    }
  }

  /** The tree after data writes to slot `s`: only that slot's content can differ. */
  ghost function Retreed(d: Disk, entries: Entries, t: Tree, s: Slot): Tree
    requires |entries| == MAX_FILES && (entries[s].Some? ==> EntryOk(s, entries[s].value))
  {
    if entries[s].Some? then t[s + 2 := NodeFor(d, s, entries[s].value)] else t
  }

  /** Between its block writes and its record write, an operation leaves the old directory on disk. */
  lemma DataTouchedMounts(d: Disk, entries: Entries, t: Tree, s: Slot, ws: seq<BlockWrite>)
    requires Mounted(d, entries, t)
    requires forall i | 0 <= i < |ws| :: TouchesOnlyData(ws[i], s)
    ensures entries[s].Some? ==> EntryOk(s, entries[s].value)
    ensures Mounted(Replay(d, ws), entries, Retreed(Replay(d, ws), entries, t, s))
    ensures entries[s].None? || entries[s].value.fileType == Directory ==> Retreed(Replay(d, ws), entries, t, s) == t
  {
    hide RecordAt, FileBytes, DecodeRecord, Replay;
    SlotFacts(d, entries, t, s);
    DataTouched(d, entries, t, s, ws);
    var d' := Replay(d, ws);
    var t' := Retreed(d', entries, t, s);
    forall x: Slot ensures SlotMounted(d', entries, t', x) {
      if x != s { assert SlotMounted(d', entries, t, x); }
    }
  }

  lemma DataKeepsTails(d: Disk, entries: Entries, s: Slot, ws: seq<BlockWrite>)
    requires ZeroTails(d, entries)
    requires forall i | 0 <= i < |ws| :: TouchesOnlyData(ws[i], s)
    requires ZeroTail(Replay(d, ws), entries, s)
    ensures ZeroTails(Replay(d, ws), entries)
  {
    forall x: Slot ensures ZeroTail(Replay(d, ws), entries, x) {
      DataWritesEffect(d, s, ws, x);
      assert ZeroTail(d, entries, x);
    }
  }

  /** There is a free slot exactly when the tree is not full. */
  lemma FreeSlotIff(d: Disk, entries: Entries, t: Tree)
    requires Mounted(d, entries, t)
    ensures |t| <= MAX_FILES
    ensures (exists s: Slot :: entries[s].None?) <==> |t| < MAX_FILES
  {
    hide Mounted, Range;
    var all := Range(2, MAX_FILES + 2);
    InodesInRange(d, entries, t);
    SubsetSize(t.Keys, all);
    assert |t| == |t.Keys|;
    if exists s: Slot :: entries[s].None? {
      var s: Slot :| entries[s].None?;
      SlotFacts(d, entries, t, s);
      SubsetSize(t.Keys, all - {s + 2});
    } else {
      forall i | i in all ensures i in t.Keys {
        var s: Slot := i - 2;
        SlotFacts(d, entries, t, s);
      }
      assert t.Keys == all;
    }
  }

  /** What is mounted is within the limits of a volume. */
  lemma MountedWithinLimits(d: Disk, entries: Entries, t: Tree)
    requires Mounted(d, entries, t)
    ensures WithinLimits(t)
  {
    FreeSlotIff(d, entries, t);
    forall i | i in t && t[i].content.Data? ensures |t[i].content.bytes| <= MAX_FILE_SIZE {
      var s: Slot := i - 2;
      SlotFacts(d, entries, t, s);
    }
  }

  lemma InodesInRange(d: Disk, entries: Entries, t: Tree)
    requires Mounted(d, entries, t)
    ensures |entries| == MAX_FILES && t.Keys <= Range(2, MAX_FILES + 2)
  {
  }

  /** The integers from `lo` up to but not including `hi`. */
  function Range(lo: int, hi: int): (r: set<int>)
    requires lo <= hi
    ensures |r| == hi - lo
    ensures forall i :: i in r <==> lo <= i < hi
    decreases hi - lo
  {
    if lo == hi then {} else Range(lo, hi - 1) + {hi - 1}
  }

  // ----- The block writes of each operation -----

  function CreateWrites(d: Disk, s: Slot, e: DirectoryEntry): seq<BlockWrite>
    requires |e.name| == NAME_BYTES
  {
    (if e.fileType == File then ClearWrites(s) else []) + [RecordWrite(d, s, EncodeRecord(e))]
  }

  function RemoveWrites(d: Disk, s: Slot, kind: FileType): seq<BlockWrite>
  {
    [RecordWrite(d, s, Zeros(ENTRY_SIZE))] + (if kind == File then ClearWrites(s) else [])
  }

  function RelinkWrites(d: Disk, s: Slot, e: DirectoryEntry): seq<BlockWrite>
    requires |e.name| == NAME_BYTES
  {
    [RecordWrite(d, s, EncodeRecord(e))]
  }

  function FileWrites(d: Disk, s: Slot, e: DirectoryEntry, offset: nat, source: Bytes): seq<BlockWrite>
    requires |e.name| == NAME_BYTES && offset + |source| <= MAX_FILE_SIZE
  {
    DataWrites(d, s, offset, source) + [RecordWrite(d, s, EncodeRecord(e))]
  }

  // The writes of a completed operation, told from the directory it leaves behind.

  function CreateTrace(d: Disk, entries: Entries, i: Inode): seq<BlockWrite>
  {
    if OnDisk(entries, i) then CreateWrites(d, i - 2, entries[i - 2].value) else []
  }

  function RemoveTrace(d: Disk, i: Inode, kind: FileType): seq<BlockWrite>
  {
    if 2 <= i < MAX_FILES + 2 then RemoveWrites(d, i - 2, kind) else []
  }

  function RelinkTrace(d: Disk, entries: Entries, i: Inode): seq<BlockWrite>
  {
    if OnDisk(entries, i) then RelinkWrites(d, i - 2, entries[i - 2].value) else []
  }

  function FileTrace(d: Disk, entries: Entries, i: Inode, offset: nat, source: Bytes): seq<BlockWrite>
  {
    if OnDisk(entries, i) && offset + |source| <= MAX_FILE_SIZE
    then FileWrites(d, i - 2, entries[i - 2].value, offset, source) else []
  }

  lemma ReplayOne(d: Disk, w: BlockWrite)
    ensures Replay(d, [w]) == Apply(d, w)
  {
    assert [w][..0] == [];
  }

  /** The directory blocks are untouched by data writes, so the record write is the same before and after them. */
  lemma RecordWriteAfterData(d: Disk, s: Slot, ws: seq<BlockWrite>, record: Bytes)
    requires forall i | 0 <= i < |ws| :: TouchesOnlyData(ws[i], s)
    requires |record| == ENTRY_SIZE
    ensures RecordWrite(Replay(d, ws), s, record) == RecordWrite(d, s, record)
  {
    KeepsDirectoryBlock(d, s, ws, s);
  }

  lemma {:induction false} KeepsDirectoryBlock(d: Disk, s: Slot, ws: seq<BlockWrite>, x: Slot)
    requires forall i | 0 <= i < |ws| :: TouchesOnlyData(ws[i], s)
    ensures Replay(d, ws)[DirectoryBlock(x)] == d[DirectoryBlock(x)]
  {
    if ws != [] {
      KeepsDirectoryBlock(d, s, ws[..|ws| - 1], x);
      DataBlocksApart(s, 0, x, 0);
      DataBlocksApart(s, 1, x, 0);
    }
  }

  /** Data writes to `s` followed by the write of its record. */
  lemma DataThenRecord(d: Disk, entries: Entries, t: Tree, s: Slot, ws: seq<BlockWrite>, e: DirectoryEntry)
    requires Mounted(d, entries, t) && EntryOk(s, e)
    requires forall i | 0 <= i < |ws| :: TouchesOnlyData(ws[i], s)
    ensures var d' := Replay(d, ws + [RecordWrite(d, s, EncodeRecord(e))]);
            && FileBytes(d', s) == FileBytes(Replay(d, ws), s)
            && Mounted(d', entries[s := Some(e)], t[s + 2 := NodeFor(d', s, e)])
  {
    hide Mounted, MountedBut, EncodeRecord, RecordWrite, Replay, Apply, RecordAt, FileBytes;
    var d1, w := Replay(d, ws), RecordWrite(d, s, EncodeRecord(e));
    RecordWriteAfterData(d, s, ws, EncodeRecord(e));
    ReplayConcat(d, ws, [w]);
    ReplayOne(d1, w);
    DataTouched(d, entries, t, s, ws);
    EntryPut(d1, entries, t, s, e);
    RecordWriteEffect(d1, s, EncodeRecord(e), s);
    assert NodeFor(Apply(d1, w), s, e) == NodeFor(d1, s, e);
  }

  lemma DataThenRecordTails(d: Disk, entries: Entries, s: Slot, ws: seq<BlockWrite>, e: DirectoryEntry)
    requires ZeroTails(d, entries) && |e.name| == NAME_BYTES
    requires forall i | 0 <= i < |ws| :: TouchesOnlyData(ws[i], s)
    requires ZeroTail(Replay(d, ws), entries[s := Some(e)], s)
    ensures ZeroTails(Replay(d, ws + [RecordWrite(d, s, EncodeRecord(e))]), entries[s := Some(e)])
  {
    var d1, w := Replay(d, ws), RecordWrite(d, s, EncodeRecord(e));
    RecordWriteAfterData(d, s, ws, EncodeRecord(e));
    ReplayConcat(d, ws, [w]);
    ReplayOne(d1, w);
    var d', entries' := Apply(d1, w), entries[s := Some(e)];
    forall x: Slot ensures ZeroTail(d', entries', x) {
      DataWritesEffect(d, s, ws, x);
      RecordWriteEffect(d1, s, EncodeRecord(e), x);
      assert ZeroTail(d, entries, x);
    }
  }

  // ----- What each operation's writes do to the tree and the volume -----

  lemma CreateOnDisk(d: Disk, entries: Entries, t: Tree, s: Slot, e: DirectoryEntry)
    requires Mounted(d, entries, t) && EntryOk(s, e) && e.len == 0
    ensures var d', entries' := Replay(d, CreateWrites(d, s, e)), entries[s := Some(e)];
            && Mounted(d', entries', t[s + 2 := Node(e.parent, e.Name(), Empty(e.fileType))])
            && (ZeroTails(d, entries) ==> ZeroTails(d', entries'))
  {
    var ws := if e.fileType == File then ClearWrites(s) else [];
    var d' := Replay(d, CreateWrites(d, s, e));
    if e.fileType == File { ClearEffect(d, s); }
    DataThenRecord(d, entries, t, s, ws, e);
    if ZeroTails(d, entries) { DataThenRecordTails(d, entries, s, ws, e); }
    assert FileBytes(d', s)[..0] == [];
  }

  /** create and mkdir on disk. */
  lemma CreateState(d: Disk, entries: Entries, t: Tree, paths: Paths, v: Volume,
                    s: Slot, parent: Inode, name: Name, kind: FileType)
    requires Mounted(d, entries, t) && Represents(t, ROOT, paths, v)
    requires entries[s].None? && DirAt(t, ROOT, parent) && 1 <= |name| <= NAME_BYTES
    requires TargetError(v, Ok(Target(Some(PathTo(paths, ROOT, parent)), name))).None?
    ensures var e := NewEntry(s, parent, name, kind);
            var p := PathTo(paths, ROOT, parent) + [name];
            var d', entries' := Replay(d, CreateWrites(d, s, e)), entries[s := Some(e)];
            var t', paths', v' := t[s + 2 := Node(parent, name, Empty(kind))], paths[s + 2 := p], v[p := Empty(kind)];
            && s + 2 !in t && EntryOk(s, e)
            && Mounted(d', entries', t') && (ZeroTails(d, entries) ==> ZeroTails(d', entries'))
            && Represents(t', ROOT, paths', v')
            && FsSpec.Create(v, Ok(Target(Some(PathTo(paths, ROOT, parent)), name)), kind) == (v', None)
  {
    hide Mounted, ZeroTails, Represents, TargetError, CreateWrites, Replay, FsSpec.Create, ValidVolume;
    hide Encodable, NewEntry, EntryOk;
    RepresentsSize(t, ROOT, paths, v);
    ParentInRange(d, entries, t, parent);
    FreeSlotIff(d, entries, t);
    SlotFacts(d, entries, t, s);
    var e := NewEntry(s, parent, name, kind);
    NewEntryOk(s, parent, name, kind);
    CreateOnDisk(d, entries, t, s, e);
    CreateNode(t, ROOT, paths, v, s + 2, parent, name, kind);
  }

  lemma ParentInRange(d: Disk, entries: Entries, t: Tree, parent: Inode)
    requires Mounted(d, entries, t) && DirAt(t, ROOT, parent)
    ensures parent == ROOT || 2 <= parent < MAX_FILES + 2
  {
  }

  lemma NewEntryOk(s: Slot, parent: Inode, name: Name, kind: FileType)
    requires parent == ROOT || 2 <= parent < MAX_FILES + 2
    requires 1 <= |name| <= NAME_BYTES
    ensures var e := NewEntry(s, parent, name, kind);
            EntryOk(s, e) && e.len == 0 && e.Name() == name && e.parent == parent && e.fileType == kind
  {
  }

  lemma RemoveOnDisk(d: Disk, entries: Entries, t: Tree, s: Slot, kind: FileType)
    requires Mounted(d, entries, t)
    ensures var d', entries' := Replay(d, RemoveWrites(d, s, kind)), entries[s := None];
            && Mounted(d', entries', t - {s + 2})
            && (ZeroTails(d, entries) ==> ZeroTails(d', entries'))
  {
    var w := RecordWrite(d, s, Zeros(ENTRY_SIZE));
    var d1, entries', t' := Apply(d, w), entries[s := None], t - {s + 2};
    var ws := if kind == File then ClearWrites(s) else [];
    MountedButSlot(d, entries, t, s);
    EntryErased(d, entries, t, s);
    assert ZeroTail(d, entries', s);
    hide Mounted, ClearWrites, TouchesOnlyData, Replay, Apply, RecordWrite;
    if ZeroTails(d, entries) {
      RecordKeepsTails(d, entries, s, Zeros(ENTRY_SIZE), None);
      assert ZeroTail(Replay(d1, ws), entries', s);
      DataKeepsTails(d1, entries', s, ws);
    }
    hide ZeroTails;
    DataTouchedMounts(d1, entries', t', s, ws);
    ReplayConcat(d, [w], ws);
    ReplayOne(d, w);
  }

  /** unlink and rmdir on disk. */
  lemma RemoveState(d: Disk, entries: Entries, t: Tree, paths: Paths, v: Volume, s: Slot, kind: FileType)
    requires Mounted(d, entries, t) && Represents(t, ROOT, paths, v)
    requires entries[s].Some? && entries[s].value.fileType == kind
    requires kind == Directory ==> forall j | j in t :: t[j].parent != s + 2
    ensures s + 2 in t && s + 2 in paths && paths[s + 2] in v
    ensures var d', entries' := Replay(d, RemoveWrites(d, s, kind)), entries[s := None];
            var t', paths', v' := t - {s + 2}, paths - {s + 2}, v - {paths[s + 2]};
            && Mounted(d', entries', t') && (ZeroTails(d, entries) ==> ZeroTails(d', entries'))
            && Represents(t', ROOT, paths', v')
            && FsSpec.Remove(v, Some(paths[s + 2]), kind) == (v', None)
            && paths'.Keys == t'.Keys && ValidVolume(v')
  {
    SlotFacts(d, entries, t, s);
    ContentAt(t, ROOT, paths, v, s + 2);
    assert paths.Keys == t.Keys;
    assert ValidVolume(FsSpec.Remove(v, Some(paths[s + 2]), kind).0);
    hide Mounted, ZeroTails, Represents, RemoveWrites, Replay, FsSpec.Remove, ValidVolume;
    RemoveOnDisk(d, entries, t, s, kind);
    DeleteNode(t, ROOT, paths, v, s + 2, kind);
  }

  lemma RelinkOnDisk(d: Disk, entries: Entries, t: Tree, s: Slot, e: DirectoryEntry)
    requires Mounted(d, entries, t) && entries[s].Some? && EntryOk(s, e)
    requires e.fileType == entries[s].value.fileType && e.len == entries[s].value.len
    ensures var d', entries' := Replay(d, RelinkWrites(d, s, e)), entries[s := Some(e)];
            && s + 2 in t
            && Mounted(d', entries', t[s + 2 := Node(e.parent, e.Name(), t[s + 2].content)])
            && (ZeroTails(d, entries) ==> ZeroTails(d', entries'))
  {
    SlotFacts(d, entries, t, s);
    assert ZeroTails(d, entries) ==> ZeroTail(d, entries, s);
    assert [] + RelinkWrites(d, s, e) == RelinkWrites(d, s, e);
    assert Replay(d, []) == d;
    hide Mounted, ZeroTails, Replay, EncodeRecord, RecordWrite, FileBytes, RecordAt;
    DataThenRecord(d, entries, t, s, [], e);
    if ZeroTails(d, entries) { DataThenRecordTails(d, entries, s, [], e); }
  }

  /** The entry rename writes back. */
  function Renamed(e: DirectoryEntry, parent: Inode, name: Name): DirectoryEntry
    requires |name| <= NAME_BYTES
  {
    e.(parent := parent, name := name + Zeros(NAME_BYTES - |name|), nameLen := |name|)
  }

  /** rename on disk. */
  lemma RenameState(d: Disk, entries: Entries, t: Tree, paths: Paths, v: Volume, s: Slot, parent: Inode, name: Name)
    requires Mounted(d, entries, t) && Represents(t, ROOT, paths, v)
    requires entries[s].Some? && DirAt(t, ROOT, parent) && 1 <= |name| <= NAME_BYTES
    requires TargetError(v, Ok(Target(Some(PathTo(paths, ROOT, parent)), name))).None?
    ensures s + 2 in t && s + 2 in paths && EntryOk(s, Renamed(entries[s].value, parent, name))
    ensures var e := Renamed(entries[s].value, parent, name);
            var dest := PathTo(paths, ROOT, parent) + [name];
            var r := FsSpec.Rename(v, Some(paths[s + 2]), Ok(Target(Some(PathTo(paths, ROOT, parent)), name)));
            if paths[s + 2] <= PathTo(paths, ROOT, parent) then r == (v, Some(InvalidPath))
            else
              var d', entries' := Replay(d, RelinkWrites(d, s, e)), entries[s := Some(e)];
              var t' := t[s + 2 := Node(parent, name, t[s + 2].content)];
              && r.1.None?
              && Mounted(d', entries', t') && (ZeroTails(d, entries) ==> ZeroTails(d', entries'))
              && Represents(t', ROOT, MovedPaths(paths, s + 2, dest), r.0)
  {
    SlotFacts(d, entries, t, s);
    ContentAt(t, ROOT, paths, v, s + 2);
    var e := Renamed(entries[s].value, parent, name);
    assert parent == ROOT || 2 <= parent < MAX_FILES + 2;
    assert EntryOk(s, e) && e.Name() == name by { assert e.name[..|name|] == name; }
    hide Mounted, ZeroTails, Represents, Replay, FsSpec.Rename, MovedPaths, TargetError, EncodeRecord, PathTo;
    RelinkOnDisk(d, entries, t, s, e);
    RelinkNode(t, ROOT, paths, v, s + 2, parent, name);
  }

  /** No stale byte between the end of the file and `offset`. */
  predicate GapClear(bytes: Bytes, len: nat, offset: nat)
  {
    forall i | len <= i < offset && i < |bytes| :: bytes[i] == 0
  }

  /** The content a write leaves: the slot's bytes with the source over them, up to the new length. */
  function Stored(bytes: Bytes, len: nat, offset: nat, source: Bytes): (r: Bytes)
    requires len <= |bytes| && offset + |source| <= |bytes|
    ensures |r| == Max(len, offset + |source|)
  {
    Patch(bytes, offset, source)[..Max(len, offset + |source|)]
  }

  /** That is the flat overwrite exactly when the gap between old end and offset holds zeros only. */
  lemma StoredIff(bytes: Bytes, len: nat, offset: nat, source: Bytes)
    requires len <= |bytes| && offset + |source| <= |bytes|
    ensures Stored(bytes, len, offset, source) == Overlay(bytes[..len], offset, source) <==>
              GapClear(bytes, len, offset)
  {
    var now, flat := Stored(bytes, len, offset, source), Overlay(bytes[..len], offset, source);
    assert |now| == |flat|;
    forall i | 0 <= i < |now|
      ensures now[i] == (if offset <= i < offset + |source| then source[i - offset] else bytes[i])
      ensures flat[i] == (if offset <= i < offset + |source| then source[i - offset] else if i < len then bytes[i]
                else 0)
    {
    }
    if now == flat {
      forall i | len <= i < offset ensures bytes[i] == 0 { assert now[i] == flat[i]; }
    }
  }

  lemma StoredTail(bytes: Bytes, len: nat, offset: nat, source: Bytes)
    requires len <= |bytes| && offset + |source| <= |bytes|
    requires forall i | len <= i < |bytes| :: bytes[i] == 0
    ensures forall i | Max(len, offset + |source|) <= i < |bytes| :: Patch(bytes, offset, source)[i] == 0
    ensures GapClear(bytes, len, offset)
  {
  }

  lemma WriteOnDisk(d: Disk, entries: Entries, t: Tree, s: Slot, e: DirectoryEntry, offset: nat, source: Bytes)
    requires Mounted(d, entries, t) && entries[s].Some? && EntryOk(s, entries[s].value)
    requires entries[s].value.fileType == File && offset + |source| <= MAX_FILE_SIZE
    requires e == entries[s].value.(len := Max(entries[s].value.len, offset + |source|))
    ensures EntryOk(s, e) && s + 2 in t
    ensures var d', entries' := Replay(d, FileWrites(d, s, e, offset, source)), entries[s := Some(e)];
            var now := Data(Stored(FileBytes(d, s), entries[s].value.len, offset, source));
            && t[s + 2].content == Data(FileBytes(d, s)[..entries[s].value.len])
            && Mounted(d', entries', t[s + 2 := t[s + 2].(content := now)])
            && (ZeroTails(d, entries) ==>
                  ZeroTails(d', entries') && GapClear(FileBytes(d, s), entries[s].value.len, offset))
  {
    SlotFacts(d, entries, t, s);
    assert ZeroTails(d, entries) ==> ZeroTail(d, entries, s);
    var ws := DataWrites(d, s, offset, source);
    hide Mounted, ZeroTails, Replay, EncodeRecord, RecordWrite, FileBytes, RecordAt, DataWrites, TouchesOnlyData, Patch;
    DataWritesContents(d, s, offset, source);
    DataThenRecord(d, entries, t, s, ws, e);
    if ZeroTails(d, entries) {
      StoredTail(FileBytes(d, s), entries[s].value.len, offset, source);
      DataThenRecordTails(d, entries, s, ws, e);
    }
  }

  /**
    A file write on disk, whatever lies past the end of file: block-crossing write and new length together put
    the source over the slot's bytes. That is the flat overwrite exactly when the gap is clear.
   */
  lemma WriteState(d: Disk, entries: Entries, t: Tree, paths: Paths, v: Volume,
                   s: Slot, e: DirectoryEntry, offset: nat, source: Bytes)
    requires Mounted(d, entries, t) && Represents(t, ROOT, paths, v)
    requires entries[s].Some? && entries[s].value.fileType == File && offset + |source| <= MAX_FILE_SIZE
    requires e == entries[s].value.(len := Max(entries[s].value.len, offset + |source|))
    ensures EntryOk(s, entries[s].value) && EntryOk(s, e) && s + 2 in t && s + 2 in paths && paths[s + 2] in v
    ensures var d', entries' := Replay(d, FileWrites(d, s, e, offset, source)), entries[s := Some(e)];
            var was := FileBytes(d, s)[..entries[s].value.len];
            var now := Stored(FileBytes(d, s), entries[s].value.len, offset, source);
            var t', v' := t[s + 2 := t[s + 2].(content := Data(now))], v[paths[s + 2] := Data(now)];
            && v[paths[s + 2]] == Data(was)
            && (now == Overlay(was, offset, source) <==> GapClear(FileBytes(d, s), |was|, offset))
            && t'.Keys == t.Keys && ValidVolume(v')
            && Mounted(d', entries', t') && Represents(t', ROOT, paths, v')
            && (ZeroTails(d, entries) ==> ZeroTails(d', entries') && GapClear(FileBytes(d, s), |was|, offset))
  {
    hide Mounted, ZeroTails, Represents, Replay, FileWrites, FileBytes, NodeFor, ValidVolume, Overlay, Stored, GapClear;
    InodesInRange(d, entries, t);
    SlotFacts(d, entries, t, s);
    ContentAt(t, ROOT, paths, v, s + 2);
    WriteOnDisk(d, entries, t, s, e, offset, source);
    StoredIff(FileBytes(d, s), entries[s].value.len, offset, source);
    var now := Stored(FileBytes(d, s), entries[s].value.len, offset, source);
    RewriteNode(t, ROOT, paths, v, s + 2, now);
    RepresentsSize(t[s + 2 := t[s + 2].(content := Data(now))], ROOT, paths, v[paths[s + 2] := Data(now)]);
  }
}
