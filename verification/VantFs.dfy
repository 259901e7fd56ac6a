/** The VANTFS backend: the same tree operations, on records and data blocks. */
module VantFs {
  import opened Base
  import opened Numbers
  import opened PathText
  import opened FsSpec
  import opened FsTree
  import opened VantRecord
  import opened VantDisk
  import opened VantMount

  /** The components of a volume path: None without a leading slash or with an empty component. */
  function VolumePath(path: Bytes): Option<Path>
  {
    if path == [SLASH] then Some([])
    else if [SLASH] <= path then
      var cs := Split(path[1..]);
      if [] in cs then None else Some(cs)
    else None
  }

  /** Cut a volume path at its last slash. */
  function SplitParentName(path: Bytes): (r: Result<(Bytes, Name), FsError>)
    ensures r.Ok? ==> 1 <= |r.value.1| <= NAME_BYTES
  {
    if !([SLASH] <= path) || path == [SLASH] then Err(InvalidPath)
    else match LastSlash(path)
      case None => Err(InvalidPath)
      case Some(split) =>
        var parent := if split == 0 then [SLASH] else path[..split];
        var name := path[split + 1..];
        if name == [] then Err(InvalidPath)
        else if |name| > MAX_NAME_LEN then Err(NameTooLong)
        else Ok((parent, name))
  }

  /** What creating or renaming to a path aims at. */
  function VolumeTarget(path: Bytes): Result<Target, FsError>
  {
    match SplitParentName(path)
    case Err(e) => Err(e)
    case Ok((parent, name)) => Ok(Target(VolumePath(parent), name))
  }

  ghost function DestOf(path: Bytes): Path
  {
    match VolumeTarget(path)
    case Ok(Target(Some(parent), name)) => parent + [name]
    case _ => []
  }

  function VolumeBytes(cs: Path): Bytes { if cs == [] then [SLASH] else Slashed(cs) }

  /** Canonical volume paths parse to their components, and split into their parent and last component. */
  lemma CanonicalVolumePath(cs: Path)
    requires PlainPath(cs)
    ensures VolumePath(VolumeBytes(cs)) == Some(cs)
    ensures cs != [] ==>
              VolumeTarget(VolumeBytes(cs)) ==
              if |cs[|cs| - 1]| > MAX_NAME_LEN then Err(NameTooLong)
              else Ok(Target(Some(cs[..|cs| - 1]), cs[|cs| - 1]))
  {
    PathParses(cs);
    if cs != [] {
      var path, front, last := Slashed(cs), cs[..|cs| - 1], cs[|cs| - 1];
      PathParses(front);
      LastSlashOfSlashed([], cs);
      assert [] + Slashed(front) == Slashed(front) && [] + Slashed(cs) == path;
      assert PlainName(last);
      assert [SLASH] <= path && path != [SLASH];
      hide Slashed, VolumePath, LastSlash;
      assert SplitParentName(path) == if |last| > MAX_NAME_LEN then Err(NameTooLong)
          else Ok((VolumeBytes(front), last));
    }
  }

  lemma PathParses(cs: Path)
    requires PlainPath(cs)
    ensures VolumePath(VolumeBytes(cs)) == Some(cs)
  {
    if cs != [] {
      SplitSlashed(cs);
      assert PlainName(cs[|cs| - 1]);
      assert |Slashed(cs)| >= 2;
    }
  }

  /** All 32 records decoded, or corruption if any of them is. */
  ghost predicate DirectoryDecodes(d: Disk, r: Result<Entries, FsError>)
  {
    match r
    case Ok(es) => |es| == MAX_FILES && forall s: Slot :: DecodeRecord(s, RecordAt(d, s)) == Ok(es[s])
    case Err(e) => e == Corrupt && exists s: Slot :: DecodeRecord(s, RecordAt(d, s)) == Err(Corrupt)
  }

  /** Scan the directory blocks record by record. */
  method ReadEntries(disk: Disk) returns (r: Result<Entries, FsError>)
    ensures DirectoryDecodes(disk, r)
  {
    var entries: Entries := seq(MAX_FILES, i => None);
    for b := 0 to DIRECTORY_BLOCKS
      invariant |entries| == MAX_FILES
      invariant forall s: Slot | s < b * RECORDS_PER_BLOCK :: DecodeRecord(s, RecordAt(disk, s)) == Ok(entries[s])
    {
      var block := disk[DIRECTORY_START_BLOCK + b];
      for local := 0 to RECORDS_PER_BLOCK
        invariant |entries| == MAX_FILES
        invariant forall s: Slot | s < b * RECORDS_PER_BLOCK + local ::
                    DecodeRecord(s, RecordAt(disk, s)) == Ok(entries[s])
      {
        var slot: Slot := b * RECORDS_PER_BLOCK + local;
        var start := local * ENTRY_SIZE;
        assert DirectoryBlock(slot) == DIRECTORY_START_BLOCK + b && RecordStart(slot) == start;
        var record := DecodeRecord(slot, block[start..start + ENTRY_SIZE]);
        if record.Err? {
          assert DecodeRecord(slot, RecordAt(disk, slot)) == Err(Corrupt);
          return Err(Corrupt);
        }
        entries := entries[slot := record.value];
      }
    }
    return Ok(entries);
  }

  class PersistentFilesystem {
    var disk: Disk

    // Every block write since the volume was formatted, and what the disk stands for.
    ghost var trace: seq<BlockWrite>
    ghost var entries: Entries
    ghost var tree: Tree
    ghost var paths: Paths
    ghost var volume: Volume

    ghost predicate Valid()
      reads this
    {
      && |entries| == MAX_FILES
      && Mounted(disk, entries, tree)
      && paths.Keys == tree.Keys
      && ValidVolume(volume)
      && Represents(tree, ROOT, paths, volume)
    }

    /** Nothing but zeros past the end of any file: so on a formatted volume, and kept by every operation. */
    ghost predicate Zeroed()
      reads this
    {
      ZeroTails(disk, entries)
    }

    /** A formatted volume: every directory record is empty. */
    constructor (formatted: Disk)
      requires forall s: Slot :: RecordAt(formatted, s)[0] == 0
      ensures Valid() && Zeroed()
      ensures disk == formatted && volume == map[] && trace == []
    {
      disk, trace := formatted, [];
      entries, tree := seq(MAX_FILES, i => None), map[];
      paths, volume := map[], map[];
      EmptyRepresents(ROOT);
      new;
      forall s: Slot ensures SlotMounted(disk, entries, tree, s) && ZeroTail(disk, entries, s) {
        assert RecordAt(disk, s)[0] == 0;
      }
    }

    /** A volume as found on disk, after a crash for instance: whatever lies past the ends of its files. */
    constructor Mount(found: Disk, ghost es: Entries, ghost t: Tree, ghost ps: Paths)
      requires Mounted(found, es, t) && WellFormed(t, ROOT, ps)
      ensures Valid()
      ensures disk == found && entries == es && tree == t && paths == ps && volume == VolumeOf(t, ps) && trace == []
    {
      MountedWithinLimits(found, es, t);
      TreeGivesVolume(t, ROOT, ps);
      disk, trace := found, [];
      entries, tree, paths, volume := es, t, ps, VolumeOf(t, ps);
    }

    // ----- Blocks and records -----

    method WriteBlock(index: BlockIndex, block: Block)
      modifies this`disk, this`trace
      ensures disk == Apply(old(disk), BlockWrite(index, block))
      ensures trace == old(trace) + [BlockWrite(index, block)]
    {
      disk := disk[index := block];
      trace := trace + [BlockWrite(index, block)];
    }

    /** Read the directory block, patch the record field by field, write the block back. */
    method WriteEntry(e: DirectoryEntry)
      requires e.slot < MAX_FILES && |e.name| == NAME_BYTES
      modifies this`disk, this`trace
      ensures var w := RecordWrite(old(disk), e.slot, EncodeRecord(e));
              disk == Apply(old(disk), w) && trace == old(trace) + [w]
    {
      var index := DIRECTORY_START_BLOCK + e.slot / RECORDS_PER_BLOCK;
      var local := e.slot % RECORDS_PER_BLOCK;
      var block: Bytes := disk[index];
      var start := local * ENTRY_SIZE;
      block := Patch(block, start, Zeros(ENTRY_SIZE));
      block := block[start := 1];
      block := block[start + 1 := e.nameLen % 256];
      block := block[start + 2 := if e.fileType == File then 1 else 2];
      block := Patch(block, start + 8, ToLe(e.inode, 8));
      block := Patch(block, start + 16, ToLe(e.len, 4));
      block := Patch(block, start + 20, ToLe(e.parent, 4));
      block := Patch(block, start + 24, e.name);
      RecordFields(disk[index], start, e, block);
      WriteBlock(index, block);
    }

    method WriteEmptyEntry(slot: Slot)
      modifies this`disk, this`trace
      ensures var w := RecordWrite(old(disk), slot, Zeros(ENTRY_SIZE));
              disk == Apply(old(disk), w) && trace == old(trace) + [w]
    {
      var index := DIRECTORY_START_BLOCK + slot / RECORDS_PER_BLOCK;
      var local := slot % RECORDS_PER_BLOCK;
      var start := local * ENTRY_SIZE;
      var block := Patch(disk[index], start, Zeros(ENTRY_SIZE));
      WriteBlock(index, block);
    }

    method ClearData(slot: Slot)
      modifies this`disk, this`trace
      ensures disk == Replay(old(disk), ClearWrites(slot))
      ensures trace == old(trace) + ClearWrites(slot)
    {
      for fileBlock := 0 to BLOCKS_PER_FILE
        invariant disk == Replay(old(disk), ClearWrites(slot)[..fileBlock])
        invariant trace == old(trace) + ClearWrites(slot)[..fileBlock]
      {
        WriteBlock(DataBlock(slot, fileBlock), ZERO_BLOCK);
        TakeSnoc(ClearWrites(slot), fileBlock);
        assert ClearWrites(slot)[..fileBlock + 1][..fileBlock] == ClearWrites(slot)[..fileBlock];
      }
      TakeAll(ClearWrites(slot));
    }

    /** Block-crossing read: the bytes of the slot's data from `offset` on. */
    method ReadData(slot: Slot, offset: nat, count: nat) returns (out: Bytes)
      requires count == 0 || offset + count <= MAX_FILE_SIZE
      ensures count > 0 ==> out == FileBytes(disk, slot)[offset..offset + count]
      ensures count == 0 ==> out == []
    {
      out := Zeros(count);
      var copied := 0;
      while copied < count
        invariant 0 <= copied <= count == |out|
        invariant copied > 0 ==> out[..copied] == FileBytes(disk, slot)[offset..offset + copied]
      {
        var absolute := offset + copied;
        var fileBlock := absolute / BLOCK_SIZE;
        var within := absolute % BLOCK_SIZE;
        var chunk := Min(BLOCK_SIZE - within, count - copied);
        var block := disk[DataBlock(slot, fileBlock)];
        ChunkOfFile(disk, slot, absolute, chunk);
        PatchAppends(out, copied, block[within..within + chunk]);
        out := Patch(out, copied, block[within..within + chunk]);
        copied := copied + chunk;
      }
      TakeAll(out);
    }

    /** Block-crossing write: one read-modify-write per block touched. */
    method WriteData(slot: Slot, offset: nat, source: Bytes)
      requires offset + |source| <= MAX_FILE_SIZE
      modifies this`disk, this`trace
      ensures disk == Replay(old(disk), DataWrites(old(disk), slot, offset, source))
      ensures trace == old(trace) + DataWrites(old(disk), slot, offset, source)
    {
      hide Replay, Apply, Patch, DataWrites;
      var copied := 0;
      ghost var done: seq<BlockWrite> := [];
      ghost var all := DataWrites(old(disk), slot, offset, source);
      ReplayConcat(disk, [], []);
      NothingWritten(disk, slot, offset, source);
      while copied < |source|
        invariant 0 <= copied <= |source|
        invariant all == done + DataWrites(disk, slot, offset + copied, source[copied..])
        invariant disk == Replay(old(disk), done)
        invariant trace == old(trace) + done
      {
        var absolute := offset + copied;
        var fileBlock := absolute / BLOCK_SIZE;
        var within := absolute % BLOCK_SIZE;
        var count := Min(BLOCK_SIZE - within, |source| - copied);
        var index := DataBlock(slot, fileBlock);
        var block := Patch(disk[index], within, source[copied..copied + count]);
        ghost var w := BlockWrite(index, block);
        NextBlock(old(disk), disk, slot, offset, source, copied, done, all, w);
        WriteBlock(index, block);
        assert trace == old(trace) + (done + [w]);
        done := done + [w];
        copied := copied + count;
      }
      AllWritten(disk, slot, offset + copied, source[copied..]);
      assert done + [] == done;
    }

    // ----- Lookups in the decoded directory -----

    method LoadEntries() returns (es: Entries)
      requires Valid()
      ensures es == entries
    {
      hide Represents, ZeroTails, ValidVolume, RecordAt, DecodeRecord;
      var r := ReadEntries(disk);
      forall s: Slot ensures DecodeRecord(s, RecordAt(disk, s)) == Ok(entries[s]) {
        SlotFacts(disk, entries, tree, s);
      }
      assert r.Ok?;
      return r.value;
    }

    method Child(parent: Inode, name: Name) returns (r: Option<Inode>)
      requires Valid()
      ensures IsChildLookup(tree, parent, name, r)
    {
      hide Represents, ZeroTails, ValidVolume, RecordAt, FileBytes, DecodeRecord;
      var es := LoadEntries();
      for k := 0 to MAX_FILES
        invariant forall i | i in tree && i < k + 2 :: !(tree[i].parent == parent && tree[i].name == name)
      {
        SlotFacts(disk, entries, tree, k);
        if es[k].Some? && es[k].value.parent == parent && es[k].value.Name() == name {
          return Some(es[k].value.inode);
        }
      }
      return None;
    }

    method FindInode(inode: Inode) returns (r: Option<DirectoryEntry>)
      requires Valid()
      ensures r.Some? <==> inode in tree
      ensures r.Some? ==> 2 <= inode < MAX_FILES + 2 && entries[inode - 2] == r && EntryOk(inode - 2, r.value)
      ensures r.Some? ==> tree[inode] == NodeFor(disk, inode - 2, r.value)
    {
      hide Represents, ZeroTails, ValidVolume, RecordAt, FileBytes, DecodeRecord;
      var es := LoadEntries();
      for k := 0 to MAX_FILES
        invariant inode in tree ==> inode >= k + 2
      {
        SlotFacts(disk, entries, tree, k);
        if es[k].Some? && es[k].value.inode == inode { return es[k]; }
      }
      return None;
    }

    method AnyChildOf(inode: Inode) returns (r: bool)
      requires Valid()
      ensures r <==> exists j :: j in tree && tree[j].parent == inode
    {
      hide Represents, ZeroTails, ValidVolume, RecordAt, FileBytes, DecodeRecord;
      var es := LoadEntries();
      for k := 0 to MAX_FILES
        invariant forall i | i in tree && i < k + 2 :: tree[i].parent != inode
      {
        SlotFacts(disk, entries, tree, k);
        if es[k].Some? && es[k].value.parent == inode {
          assert tree[k + 2].parent == inode;
          return true;
        }
      }
      return false;
    }

    /** Walk down from the root, one component at a time. */
    method ResolvePath(path: Bytes) returns (r: Option<Inode>)
      requires Valid()
      ensures VolumePath(path).None? ==> r.None?
      ensures VolumePath(path).Some? ==> IsResolution(tree, ROOT, paths, VolumePath(path).value, r)
    {
      if path == [SLASH] { return Some(ROOT); }
      if !([SLASH] <= path) { return None; }
      r := Walk(Split(path[1..]));
    }

    method Walk(cs: Path) returns (r: Option<Inode>)
      requires Valid()
      ensures [] in cs ==> r.None?
      ensures [] !in cs ==> IsResolution(tree, ROOT, paths, cs, r)
    {
      hide Mounted, ZeroTails, ValidVolume;
      var parent := ROOT;
      for k := 0 to |cs|
        invariant [] !in cs[..k]
        invariant Live(tree, ROOT, parent) && PathTo(paths, ROOT, parent) == cs[..k]
      {
        if cs[k] == [] { return None; }
        var child := Child(parent, cs[k]);
        WalkStep(tree, ROOT, paths, cs, k, parent, child);
        if child.None? { return None; }
        parent := child.value;
        TakeSnoc(cs, k);
      }
      TakeAll(cs);
      return Some(parent);
    }

    /** Climb from `candidate` to the root; the length of its path is what shrinks. */
    method IsDescendant(candidate: Inode, ancestor: Inode) returns (r: bool)
      requires Valid()
      requires Live(tree, ROOT, candidate) && ancestor in tree
      ensures r <==> paths[ancestor] <= PathTo(paths, ROOT, candidate)
    {
      hide Mounted, ZeroTails, ValidVolume;
      PathNonEmpty(tree, ROOT, paths, ancestor);
      var c := candidate;
      while c != ROOT
        invariant Live(tree, ROOT, c)
        invariant paths[ancestor] <= PathTo(paths, ROOT, candidate) <==> paths[ancestor] <= PathTo(paths, ROOT, c)
        decreases |PathTo(paths, ROOT, c)|
      {
        ClimbStep(tree, ROOT, paths, c, ancestor);
        if c == ancestor { return true; }
        var e := FindInode(c);
        if e.None? { return false; }
        c := e.value.parent;
      }
      return false;
    }

    /** The checks create and rename share: the parent is a directory and the name is free in it. */
    method FindTarget(path: Bytes) returns (r: Result<(Inode, Name), FsError>)
      requires Valid()
      ensures ErrorOf(r) == TargetError(volume, VolumeTarget(path))
      ensures r.Ok? ==> VolumeTarget(path) == Ok(Target(Some(PathTo(paths, ROOT, r.value.0)), r.value.1))
      ensures r.Ok? ==> DirAt(tree, ROOT, r.value.0) && 1 <= |r.value.1| <= NAME_BYTES
    {
      hide Mounted, ZeroTails, ValidVolume, Represents, VolumePath, EntryOk;
      var split := SplitParentName(path);
      if split.Err? { return Err(split.error); }
      var (parentPath, name) := split.value;
      var parent := ResolvePath(parentPath);
      if VolumePath(parentPath).Some? { Resolved(tree, ROOT, paths, volume, VolumePath(parentPath).value, parent); }
      if parent.None? { return Err(NotFound); }
      if parent.value != ROOT {
        var e := FindInode(parent.value);
        if e.None? || e.value.fileType != Directory { return Err(NotDirectory); }
      }
      var clash := Child(parent.value, name);
      TargetFree(tree, ROOT, paths, volume, parent.value, name, clash);
      if clash.Some? { return Err(AlreadyExists); }
      return Ok((parent.value, name));
    }

    /** The first free slot. */
    method FreeSlot() returns (r: Option<Slot>)
      requires Valid()
      ensures r.Some? ==> |volume| < MAX_NODES && entries[r.value].None?
      ensures r.None? ==> |volume| == MAX_NODES
    {
      FreeSlotIff(disk, entries, tree);
      assert |volume| == |tree|;
      hide Mounted, ZeroTails, ValidVolume, Represents;
      var es := LoadEntries();
      for k := 0 to MAX_FILES
        invariant forall s: Slot | s < k :: entries[s].Some?
      {
        if es[k].None? { return Some(k); }
      }
      return None;
    }

    // ----- The operations -----

    /** create (File) and mkdir (Directory). */
    method Create(path: Bytes, fileType: FileType) returns (r: Result<Inode, FsError>)
      requires Valid()
      modifies this
      ensures Valid() && (old(Zeroed()) ==> Zeroed())
      ensures r.Err? ==> unchanged(this)
      ensures (volume, ErrorOf(r)) == FsSpec.Create(old(volume), VolumeTarget(path), fileType)
      ensures r.Ok? ==> OnDisk(entries, r.value) && r.value !in old(paths)
      ensures r.Ok? ==> paths == old(paths)[r.value := DestOf(path)]
      ensures r.Ok? ==> trace == old(trace) + CreateTrace(old(disk), entries, r.value)
    {
      hide Mounted, ZeroTails, Represents, ValidVolume, FsSpec.Create, TargetError, VolumeTarget, PathTo, CreateTrace;
      hide EntryOk, OnDisk;
      CreateRefused(volume, VolumeTarget(path), fileType);
      var target := FindTarget(path);
      if target.Err? { return Err(target.error); }
      var (parent, name) := target.value;
      var slot := FreeSlot();
      if slot.None? { return Err(NoSpace); }
      PutNew(slot.value, parent, name, fileType);
      var inode: nat := slot.value;
      return Ok(inode + 2);
    }

    method PutNew(slot: Slot, parent: Inode, name: Name, fileType: FileType)
      requires Valid() && entries[slot].None? && DirAt(tree, ROOT, parent) && 1 <= |name| <= NAME_BYTES
      requires TargetError(volume, Ok(Target(Some(PathTo(paths, ROOT, parent)), name))).None?
      modifies this
      ensures Valid() && (old(Zeroed()) ==> Zeroed())
      ensures (volume, None) ==
                FsSpec.Create(old(volume), Ok(Target(Some(PathTo(old(paths), ROOT, parent)), name)), fileType)
      ensures slot + 2 !in old(paths) && paths == old(paths)[slot + 2 := PathTo(old(paths), ROOT, parent) + [name]]
      ensures OnDisk(entries, slot + 2) && trace == old(trace) + CreateTrace(old(disk), entries, slot + 2)
    {
      hide Mounted, ZeroTails, Represents, ValidVolume, FsSpec.Create, TargetError, PathTo, Replay, EncodeRecord;
      hide Encodable;
      CreateState(disk, entries, tree, paths, volume, slot, parent, name, fileType);
      var e := NewEntry(slot, parent, name, fileType);
      ghost var clears := if fileType == File then ClearWrites(slot) else [];
      if fileType == File { ClearData(slot); }
      assert disk == Replay(old(disk), clears) by { NothingWritten(old(disk), slot, 0, []); }
      RecordWriteAfterData(old(disk), slot, clears, EncodeRecord(e));
      WriteEntry(e);
      ReplayConcat(old(disk), clears, [RecordWrite(old(disk), slot, EncodeRecord(e))]);
      ReplayOne(Replay(old(disk), clears), RecordWrite(old(disk), slot, EncodeRecord(e)));
      assert trace == old(trace) + CreateWrites(old(disk), slot, e);
      ghost var p := PathTo(paths, ROOT, parent) + [name];
      entries, tree := entries[slot := Some(e)], tree[slot + 2 := Node(parent, name, Empty(fileType))];
      paths, volume := paths[slot + 2 := p], volume[p := Empty(fileType)];
    }

    /** unlink (File) and rmdir (Directory). */
    method Remove(path: Bytes, expected: FileType) returns (r: Result<Inode, FsError>)
      requires Valid()
      modifies this
      ensures Valid() && (old(Zeroed()) ==> Zeroed())
      ensures r.Err? ==> unchanged(this)
      ensures (volume, ErrorOf(r)) == FsSpec.Remove(old(volume), VolumePath(path), expected)
      ensures r.Ok? ==> r.value in old(paths) && Some(old(paths)[r.value]) == VolumePath(path)
      ensures r.Ok? ==> paths == old(paths) - {r.value}
      ensures r.Ok? ==> trace == old(trace) + RemoveTrace(old(disk), r.value, expected)
    {
      hide Mounted, ZeroTails, Represents, ValidVolume, FsSpec.Remove, VolumePath, IsResolution, RemoveTrace, EntryOk;
      hide PathTo;
      RemoveRefused(volume, VolumePath(path), expected);
      var inode := ResolvePath(path);
      if VolumePath(path).Some? { Resolved(tree, ROOT, paths, volume, VolumePath(path).value, inode); }
      if inode.None? { return Err(NotFound); }
      if inode.value == ROOT { return Err(ReadOnly); }
      var entry := FindInode(inode.value);
      if entry.None? { return Err(NotFound); }
      DeleteRefused(tree, ROOT, paths, volume, inode.value, expected);
      if entry.value.fileType != expected {
        return Err(if expected == File then IsDirectory else NotDirectory);
      }
      var hasChild := AnyChildOf(inode.value);
      if expected == Directory && hasChild { return Err(DirectoryNotEmpty); }
      Drop(inode.value - 2, expected);
      return Ok(inode.value);
    }

    method Drop(slot: Slot, kind: FileType)
      requires Valid() && entries[slot].Some? && entries[slot].value.fileType == kind
      requires kind == Directory ==> forall j | j in tree :: tree[j].parent != slot + 2
      modifies this
      ensures Valid() && (old(Zeroed()) ==> Zeroed())
      ensures slot + 2 in old(paths) && paths == old(paths) - {slot + 2}
      ensures (volume, None) == FsSpec.Remove(old(volume), Some(old(paths)[slot + 2]), kind)
      ensures trace == old(trace) + RemoveTrace(old(disk), slot + 2, kind)
    {
      hide Mounted, ZeroTails, Represents, ValidVolume, FsSpec.Remove, Replay, RecordWrite;
      RemoveState(disk, entries, tree, paths, volume, slot, kind);
      ghost var w := RecordWrite(disk, slot, Zeros(ENTRY_SIZE));
      ghost var clears := if kind == File then ClearWrites(slot) else [];
      WriteEmptyEntry(slot);
      ReplayOne(old(disk), w);
      ReplayConcat(old(disk), [w], clears);
      if kind == File {
        ClearData(slot);
      } else {
        NothingWritten(disk, slot, 0, []);
      }
      assert trace == old(trace) + RemoveWrites(old(disk), slot, kind);
      entries, tree := entries[slot := None], tree - {slot + 2};
      volume := volume - {paths[slot + 2]};
      paths := paths - {slot + 2};
    }

    method Rename(oldPath: Bytes, newPath: Bytes) returns (r: Result<Inode, FsError>)
      requires Valid()
      modifies this
      ensures Valid() && (old(Zeroed()) ==> Zeroed())
      ensures r.Err? ==> unchanged(this)
      ensures (volume, ErrorOf(r)) == FsSpec.Rename(old(volume), VolumePath(oldPath), VolumeTarget(newPath))
      ensures r.Ok? ==> r.value in old(paths) && Some(old(paths)[r.value]) == VolumePath(oldPath)
      ensures r.Ok? ==> paths == MovedPaths(old(paths), r.value, DestOf(newPath))
      ensures r.Ok? ==> OnDisk(entries, r.value)
      ensures r.Ok? ==> trace == old(trace) + RelinkTrace(old(disk), entries, r.value)
    {
      hide Mounted, ZeroTails, Represents, ValidVolume, FsSpec.Rename, TargetError, VolumeTarget, PathTo, MovedPaths;
      hide VolumePath, IsResolution, RelinkTrace, EntryOk, OnDisk;
      RenameRefused(volume, VolumePath(oldPath), VolumeTarget(newPath));
      var inode := ResolvePath(oldPath);
      if VolumePath(oldPath).Some? { Resolved(tree, ROOT, paths, volume, VolumePath(oldPath).value, inode); }
      if inode.None? { return Err(NotFound); }
      if inode.value == ROOT { return Err(ReadOnly); }
      var target := FindTarget(newPath);
      if target.Err? { return Err(target.error); }
      var (newParent, newName) := target.value;
      var entry := FindInode(inode.value);
      RenameState(disk, entries, tree, paths, volume, inode.value - 2, newParent, newName);
      var below := IsDescendant(newParent, inode.value);
      if below { return Err(InvalidPath); }
      Relink(inode.value - 2, newParent, newName);
      return Ok(inode.value);
    }

    method Relink(slot: Slot, parent: Inode, name: Name)
      requires Valid() && entries[slot].Some? && DirAt(tree, ROOT, parent) && 1 <= |name| <= NAME_BYTES
      requires slot + 2 in paths && !(paths[slot + 2] <= PathTo(paths, ROOT, parent))
      requires TargetError(volume, Ok(Target(Some(PathTo(paths, ROOT, parent)), name))).None?
      modifies this
      ensures Valid() && (old(Zeroed()) ==> Zeroed())
      ensures paths == MovedPaths(old(paths), slot + 2, PathTo(old(paths), ROOT, parent) + [name])
      ensures (volume, None) == FsSpec.Rename(old(volume), Some(old(paths)[slot + 2]),
                                              Ok(Target(Some(PathTo(old(paths), ROOT, parent)), name)))
      ensures OnDisk(entries, slot + 2) && trace == old(trace) + RelinkTrace(old(disk), entries, slot + 2)
    {
      hide Mounted, ZeroTails, Represents, ValidVolume, FsSpec.Rename, TargetError, PathTo, Replay, EncodeRecord;
      hide RecordWrite, Encodable, MovedPaths;
      RenameState(disk, entries, tree, paths, volume, slot, parent, name);
      var es := LoadEntries();
      var e := Renamed(es[slot].value, parent, name);
      ghost var up := PathTo(paths, ROOT, parent);
      ghost var renamed := FsSpec.Rename(volume, Some(paths[slot + 2]), Ok(Target(Some(up), name)));
      MovedKeys(paths, slot + 2, up + [name]);
      ReplayOne(disk, RecordWrite(disk, slot, EncodeRecord(e)));
      WriteEntry(e);
      entries, tree := entries[slot := Some(e)], tree[slot + 2 := Node(parent, name, tree[slot + 2].content)];
      paths, volume := MovedPaths(paths, slot + 2, up + [name]), renamed.0;
    }

    /** The bytes a write to this inode would leave in the file. */
    ghost function After(inode: Inode, offset: nat, source: Bytes): Bytes
      reads this
      requires OnDisk(entries, inode) && offset + |source| <= MAX_FILE_SIZE
    {
      Stored(FileBytes(disk, inode - 2), entries[inode - 2].value.len, offset, source)
    }

    /** No stale byte between the end of this file and `offset`. */
    ghost predicate Clear(inode: Inode, offset: nat)
      reads this
      requires OnDisk(entries, inode)
    {
      GapClear(FileBytes(disk, inode - 2), entries[inode - 2].value.len, offset)
    }

    /** The write is the flat overwrite exactly when the gap it leaves behind the old end of file is clear. */
    method Write(inode: Inode, offset: nat, source: Bytes) returns (r: Result<nat, FsError>)
      requires Valid()
      modifies this
      ensures Valid() && paths == old(paths) && (old(Zeroed()) ==> Zeroed())
      ensures r.Err? ==> unchanged(this)
      ensures ErrorOf(r) == VolumeWriteError(ContentOf(old(paths), old(volume), inode), offset + |source|)
      ensures r.Ok? ==> r.value == |source| && OnDisk(old(entries), inode) && OnDisk(entries, inode)
      ensures r.Ok? ==> offset + |source| <= MAX_FILE_SIZE && inode in paths
      ensures r.Ok? ==> volume == old(volume)[paths[inode] := Data(old(After(inode, offset, source)))]
      ensures r.Ok? ==> (volume == Written(old(paths), old(volume), inode, offset, source) <==>
                old(Clear(inode, offset)))
      ensures r.Ok? && old(Zeroed()) ==> volume == Written(old(paths), old(volume), inode, offset, source)
      ensures r.Ok? ==> trace == old(trace) + FileTrace(old(disk), entries, inode, offset, source)
    {
      hide Mounted, ZeroTails, Represents, ValidVolume, Replay, EncodeRecord, RecordWrite, FileBytes, FileTrace, Stored;
      hide GapClear, Overlay;
      if inode in paths { ContentAt(tree, ROOT, paths, volume, inode); }
      var end := offset + |source|;
      if end > MAX_FILE_SIZE { return Err(FileTooLarge); }
      var entry := FindInode(inode);
      if entry.None? { return Err(NotFound); }
      if entry.value.fileType != File { return Err(IsDirectory); }
      StoreBytes(inode - 2, entry.value, offset, source);
      assert Written(old(paths), old(volume), inode, offset, source)[paths[inode]] ==
             Data(Overlay(old(volume)[paths[inode]].bytes, offset, source));
      return Ok(|source|);
    }

    method StoreBytes(slot: Slot, entry: DirectoryEntry, offset: nat, source: Bytes)
      requires Valid() && entries[slot] == Some(entry) && entry.fileType == File && offset + |source| <= MAX_FILE_SIZE
      modifies this
      ensures Valid() && paths == old(paths) && slot + 2 in paths && paths[slot + 2] in old(volume)
      ensures OnDisk(old(entries), slot + 2) && OnDisk(entries, slot + 2) && old(volume)[paths[slot + 2]].Data?
      ensures old(Zeroed()) ==> Zeroed() && old(Clear(slot + 2, offset))
      ensures volume == old(volume)[paths[slot + 2] := Data(old(After(slot + 2, offset, source)))]
      ensures old(After(slot + 2, offset, source)) == Overlay(old(volume)[paths[slot + 2]].bytes, offset, source) <==>
                old(Clear(slot + 2, offset))
      ensures trace == old(trace) + FileTrace(old(disk), entries, slot + 2, offset, source)
    {
      hide Mounted, ZeroTails, Represents, ValidVolume, Replay, EncodeRecord, RecordWrite, DataWrites, FileBytes;
      hide Overlay, Stored, GapClear;
      var e := entry.(len := Max(entry.len, offset + |source|));
      WriteState(disk, entries, tree, paths, volume, slot, e, offset, source);
      ghost var now := Data(Stored(FileBytes(disk, slot), entry.len, offset, source));
      ghost var ws := DataWrites(disk, slot, offset, source);
      ghost var w := RecordWrite(disk, slot, EncodeRecord(e));
      WriteData(slot, offset, source);
      RecordWriteAfterData(old(disk), slot, ws, EncodeRecord(e));
      WriteEntry(e);
      ReplayConcat(old(disk), ws, [w]);
      ReplayOne(Replay(old(disk), ws), w);
      assert trace == old(trace) + (ws + [w]);
      entries := entries[slot := Some(e)];
      tree := tree[slot + 2 := tree[slot + 2].(content := now)];
      volume := volume[paths[slot + 2] := now];
    }

    method Read(inode: Inode, offset: nat, out: nat) returns (r: Result<Bytes, FsError>)
      requires Valid()
      ensures r == match ContentOf(paths, volume, inode)
                   case None => Err(NotFound)
                   case Some(Dir) => Err(IsDirectory)
                   case Some(Data(bytes)) => Ok(ReadAt(bytes, offset, out))
    {
      hide Mounted, ZeroTails, Represents, ValidVolume, FileBytes, Encodable;
      if inode in paths { ContentAt(tree, ROOT, paths, volume, inode); }
      var entry := FindInode(inode);
      if entry.None? { return Err(NotFound); }
      if entry.value.fileType != File { return Err(IsDirectory); }
      var count := Min(Max(0, entry.value.len - offset), out);
      var data := ReadData(entry.value.slot, offset, count);
      ReadAtOf(FileBytes(disk, inode - 2), entry.value.len, offset, out);
      return Ok(data);
    }
  }

  lemma ReadAtOf(bytes: Bytes, len: nat, offset: nat, out: nat)
    requires len <= |bytes|
    ensures var count := Min(Max(0, len - offset), out);
            ReadAt(bytes[..len], offset, out) == if count == 0 then [] else bytes[offset..offset + count]
  {
  }

  /** Patching the fields one by one gives the block with the encoded record in place. */
  lemma RecordFields(was: Block, start: nat, e: DirectoryEntry, now: Bytes)
    requires start + ENTRY_SIZE <= BLOCK_SIZE && |e.name| == NAME_BYTES
    requires var b1 := Patch(was, start, Zeros(ENTRY_SIZE))[start := 1][start + 1 := e.nameLen % 256];
             var b2 := b1[start + 2 := if e.fileType == File then 1 else 2];
             var b3 := Patch(Patch(b2, start + 8, ToLe(e.inode, 8)), start + 16, ToLe(e.len, 4));
             now == Patch(Patch(b3, start + 20, ToLe(e.parent, 4)), start + 24, e.name)
    ensures now == Patch(was, start, EncodeRecord(e))
  {
    hide ToLe, Patch;
    forall i | 0 <= i < BLOCK_SIZE ensures now[i] == Patch(was, start, EncodeRecord(e))[i] {}
  }

  lemma NothingWritten(d: Disk, slot: Slot, offset: nat, source: Bytes)
    requires offset + |source| <= MAX_FILE_SIZE
    ensures d == Replay(d, [])
    ensures DataWrites(d, slot, offset, source) == [] + DataWrites(d, slot, offset + 0, source[0..])
  {
    assert source[0..] == source;
  }

  lemma AllWritten(d: Disk, slot: Slot, offset: nat, source: Bytes)
    requires offset <= MAX_FILE_SIZE && source == []
    ensures DataWrites(d, slot, offset, source) == []
  {
  }

  lemma WritesUnfold(d: Disk, slot: Slot, offset: nat, source: Bytes, copied: nat)
    requires offset + |source| <= MAX_FILE_SIZE && copied < |source|
    ensures var absolute := offset + copied;
            var within := absolute % BLOCK_SIZE;
            var count := Min(BLOCK_SIZE - within, |source| - copied);
            var index := DataBlock(slot, absolute / BLOCK_SIZE);
            var w := BlockWrite(index, Patch(d[index], within, source[copied..copied + count]));
            DataWrites(d, slot, absolute, source[copied..])
            == [w] + DataWrites(Apply(d, w), slot, absolute + count, source[copied + count..])
  {
    var rest := source[copied..];
    var count := ChunkLen(offset + copied, |rest|);
    assert rest[..count] == source[copied..copied + count];
    assert rest[count..] == source[copied + count..];
  }

  /** One round of the write loop: one more block write is done, the others are still to come. */
  lemma NextBlock(d0: Disk, d: Disk, slot: Slot, offset: nat, source: Bytes, copied: nat, done: seq<BlockWrite>,
                  all: seq<BlockWrite>, w: BlockWrite)
    requires offset + |source| <= MAX_FILE_SIZE && copied < |source|
    requires all == done + DataWrites(d, slot, offset + copied, source[copied..]) && d == Replay(d0, done)
    requires var absolute := offset + copied;
             var within := absolute % BLOCK_SIZE;
             var index := DataBlock(slot, absolute / BLOCK_SIZE);
             var count := Min(BLOCK_SIZE - within, |source| - copied);
             w == BlockWrite(index, Patch(d[index], within, source[copied..copied + count]))
    ensures var count := Min(BLOCK_SIZE - (offset + copied) % BLOCK_SIZE, |source| - copied);
            all == done + [w] + DataWrites(Apply(d, w), slot, offset + copied + count, source[copied + count..])
    ensures Apply(d, w) == Replay(d0, done + [w])
  {
    hide Replay, Apply, Patch, DataWrites, DataBlock;
    WritesUnfold(d, slot, offset, source, copied);
    ReplayConcat(d0, done, [w]);
    ReplayOne(d, w);
    var count := Min(BLOCK_SIZE - (offset + copied) % BLOCK_SIZE, |source| - copied);
    ConcatAssoc(done, [w], DataWrites(Apply(d, w), slot, offset + copied + count, source[copied + count..]));
  }

  lemma ConcatAssoc(a: seq<BlockWrite>, b: seq<BlockWrite>, c: seq<BlockWrite>)
    ensures a + (b + c) == a + b + c
  {
  }

  lemma ChunkOfFile(d: Disk, slot: Slot, absolute: nat, chunk: nat)
    requires absolute + chunk <= MAX_FILE_SIZE && absolute % BLOCK_SIZE + chunk <= BLOCK_SIZE && chunk > 0
    ensures absolute / BLOCK_SIZE < BLOCKS_PER_FILE
    ensures d[DataBlock(slot, absolute / BLOCK_SIZE)][absolute % BLOCK_SIZE..absolute % BLOCK_SIZE + chunk]
         == FileBytes(d, slot)[absolute..absolute + chunk]
  {
    var f := absolute / BLOCK_SIZE;
    var block, whole := d[DataBlock(slot, f)], FileBytes(d, slot);
    assert block == whole[f * BLOCK_SIZE..f * BLOCK_SIZE + BLOCK_SIZE];
  }

  lemma PatchAppends(s: Bytes, at: nat, src: Bytes)
    requires at + |src| <= |s|
    ensures Patch(s, at, src)[..at + |src|] == s[..at] + src
  {
  }
}
