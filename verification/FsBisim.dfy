/** The two backends side by side: same outcomes and same volume over every run of corresponding operations. */
module FsBisim {
  import opened Base
  import opened PathText
  import opened FsSpec
  import opened FsTree
  import RamFs
  import VantFs
  import VantDisk
  import VantMount

  /** One operation; its paths are volume paths, which the RAM store sees below /tmp. */
  datatype Op =
    | Create(path: Bytes, kind: FileType)
    | Remove(path: Bytes, kind: FileType)
    | Rename(from: Bytes, dest: Bytes)
    | Write(path: Bytes, offset: nat, source: Bytes)
    | Read(path: Bytes, offset: nat, count: nat)

  /** The RAM store can also stop the kernel: see its read. */
  datatype Outcome = Done | Failed(error: FsError) | Wrote(count: nat) | Got(bytes: Bytes) | Stopped

  /** The backends differ in how they take a path apart, and in reads far past the end. */
  datatype Backend = Ram | Vant

  function PathOf(b: Backend, p: Bytes): Option<Path>
  {
    if b.Ram? then RamFs.StorePath(RamFs.TMP + p) else VantFs.VolumePath(p)
  }

  function TargetOf(b: Backend, p: Bytes): Result<Target, FsError>
  {
    if b.Ram? then RamFs.StoreTarget(RamFs.TMP + p) else VantFs.VolumeTarget(p)
  }

  /** A path both backends parse alike when it names an existing node. */
  predicate SafePath(p: Bytes) { [SLASH] <= p && p != [SLASH] }

  /** A path both backends parse alike when it names a node to be put in place. */
  predicate SafeTarget(p: Bytes)
  {
    [SLASH] <= p && !(LastSlash(p) == Some(1) && 1 <= |p| - 2 <= MAX_NAME_LEN)
  }

  /** The operations on which the two backends agree. */
  predicate Corresponding(op: Op)
  {
    match op
    case Create(p, _) => SafeTarget(p)
    case Remove(p, _) => SafePath(p)
    case Rename(from, dest) => SafePath(from) && SafeTarget(dest)
    case Write(p, _, _) => SafePath(p)
    case Read(p, offset, _) => SafePath(p) && offset <= MAX_FILE_SIZE
  }

  // ----- Exactly which paths the backends read alike -----

  lemma PrefixedLastSlash(p: Bytes)
    requires SLASH in p
    ensures LastSlash(RamFs.TMP + p) == Some(|RamFs.TMP| + LastSlash(p).value)
  {
    LastSlashBehind(RamFs.TMP, p);
  }

  lemma {:induction false} LastSlashBehind(a: Bytes, p: Bytes)
    requires LastSlash(p).Some?
    ensures LastSlash(a + p) == Some(|a| + LastSlash(p).value)
  {
    var front := p[..|p| - 1];
    assert (a + p)[..|a + p| - 1] == a + front && (a + p)[|a + p| - 1] == p[|p| - 1];
    if p[|p| - 1] != SLASH { LastSlashBehind(a, front); }
  }

  lemma PrefixedPath(p: Bytes)
    requires [SLASH] <= p
    ensures RamFs.TMP_SLASH <= RamFs.TMP + p && (RamFs.TMP + p)[|RamFs.TMP_SLASH|..] == p[1..]
    ensures RamFs.TMP + p != RamFs.TMP
  {
    var s := RamFs.TMP + p;
    assert s[..5] == RamFs.TMP_SLASH;
  }

  /** Of the paths with a leading slash, only the root itself is parsed differently. */
  lemma PathsAgree(p: Bytes)
    requires [SLASH] <= p
    ensures RamFs.StorePath(RamFs.TMP + p) == VantFs.VolumePath(p) <==> p != [SLASH]
  {
    PrefixedPath(p);
    if p == [SLASH] {
      assert p[1..] == [];
      assert Split([]) == [[]];
    }
  }

  /** Targets are parsed alike except for a lone name after two slashes: VANTFS takes "//x" as "/x". */
  lemma TargetsAgree(p: Bytes)
    requires [SLASH] <= p
    ensures RamFs.StoreTarget(RamFs.TMP + p) == VantFs.VolumeTarget(p) <==> SafeTarget(p)
  {
    PrefixedPath(p);
    assert p[0] == SLASH;
    PrefixedLastSlash(p);
    var k := LastSlash(p).value;
    var s := RamFs.TMP + p;
    assert s[4 + k + 1..] == p[k + 1..];
    assert s[..4 + k] == RamFs.TMP + p[..k];
    if k == 0 {
      assert RamFs.TMP + p[..0] == RamFs.TMP;
    } else {
      assert [SLASH] <= p[..k];
      PathsAgree(p[..k]);
    }
  }

  /** The concrete case: creating "//x" makes a file in the root of VANTFS and fails in the RAM store. */
  lemma DoubleSlashDiverges(v: Volume)
    requires ValidVolume(v) && |v| < MAX_NODES && [[120]] !in v
    ensures FsSpec.Create(v, VantFs.VolumeTarget([47, 47, 120]), File).1 == None
    ensures FsSpec.Create(v, RamFs.StoreTarget(RamFs.TMP + [47, 47, 120]), File).1 == Some(NotFound)
  {
    var p: Bytes := [47, 47, 120];
    LastSlashIs(p, 1);
    PrefixedPath(p);
    PrefixedLastSlash(p);
    var s := RamFs.TMP + p;
    assert s[..5] == RamFs.TMP + [47] && s[6..] == [120];
    assert p[..1] == [SLASH] && p[2..] == [120];
    var parent: Bytes := RamFs.TMP + [47];
    assert parent[5..] == [];
    assert Split([]) == [[]];
    assert RamFs.StorePath(parent) == None;
    assert [] + [p[2..]] == [[120]];
  }

  /** Writes are refused alike exactly when the size is fine or the target is a file. */
  lemma WriteErrorsAgree(c: Option<Content>, end: nat)
    ensures StoreWriteError(c, end) == VolumeWriteError(c, end) <==>
              end <= MAX_FILE_SIZE || (c.Some? && c.value.Data?)
  {
  }

  // ----- The reference run -----

  function OutcomeOf(e: Option<FsError>): Outcome { if e.Some? then Failed(e.value) else Done }

  /** What one operation does to a volume; writes and reads reach a backend only through a file that is open. */
  ghost function Step(b: Backend, v: Volume, op: Op): (r: (Volume, Outcome))
    requires ValidVolume(v)
    ensures ValidVolume(r.0)
  {
    match op
    case Create(p, kind) => var (v', e) := FsSpec.Create(v, TargetOf(b, p), kind); (v', OutcomeOf(e))
    case Remove(p, kind) => var (v', e) := FsSpec.Remove(v, PathOf(b, p), kind); (v', OutcomeOf(e))
    case Rename(from, dest) => var (v', e) := FsSpec.Rename(v, PathOf(b, from), TargetOf(b, dest)); (v', OutcomeOf(e))
    case Write(p, offset, source) =>
      var q := PathOf(b, p);
      if q.None? || !Exists(v, q.value) then (v, Failed(NotFound))
      else if IsDir(v, q.value) then (v, Failed(IsDirectory))
      else if offset + |source| > MAX_FILE_SIZE then (v, Failed(FileTooLarge))
      else
        var now := Data(Overlay(v[q.value].bytes, offset, source));
        RewriteValid(v, q.value, now);
        (v[q.value := now], Wrote(|source|))
    case Read(p, offset, count) =>
      var q := PathOf(b, p);
      if q.None? || !Exists(v, q.value) then (v, Failed(NotFound))
      else if IsDir(v, q.value) then (v, Failed(IsDirectory))
      else if b.Ram? && offset > MAX_FILE_SIZE then (v, Stopped)
      else (v, Got(ReadAt(v[q.value].bytes, offset, count)))
  }

  /** Corresponding operations do the same in both. */
  lemma StepsAgree(v: Volume, op: Op)
    requires ValidVolume(v) && Corresponding(op)
    ensures Step(Ram, v, op) == Step(Vant, v, op)
  {
    hide ValidVolume, RamFs.StorePath, RamFs.StoreTarget, VantFs.VolumePath, VantFs.VolumeTarget, FsSpec.Create;
    hide FsSpec.Remove, FsSpec.Rename;
    match op
    case Create(p, _) => TargetsAgree(p);
    case Remove(p, _) => PathsAgree(p);
    case Rename(from, dest) =>
      PathsAgree(from);
      TargetsAgree(dest);
    case Write(p, _, _) => PathsAgree(p);
    case Read(p, _, _) => PathsAgree(p);
  }

  lemma RewriteValid(v: Volume, q: Path, c: Content)
    requires ValidVolume(v) && q in v && v[q].Data? && c.Data? && |c.bytes| <= MAX_FILE_SIZE
    ensures ValidVolume(v[q := c])
  {
    assert v[q := c].Keys == v.Keys;
    assert |v[q := c]| == |v[q := c].Keys| == |v.Keys| == |v|;
  }

  ghost function Run(b: Backend, v: Volume, ops: seq<Op>): (r: (Volume, seq<Outcome>))
    requires ValidVolume(v)
    ensures ValidVolume(r.0)
    ensures |r.1| == |ops|
  {
    if ops == [] then (v, [])
    else
      var (v', outs) := Run(b, v, ops[..|ops| - 1]);
      var (v'', out) := Step(b, v', ops[|ops| - 1]);
      (v'', outs + [out])
  }

  lemma {:induction false} RunsAgree(v: Volume, ops: seq<Op>)
    requires ValidVolume(v) && forall k | 0 <= k < |ops| :: Corresponding(ops[k])
    ensures Run(Ram, v, ops) == Run(Vant, v, ops)
  {
    if ops != [] {
      hide ValidVolume, Corresponding, Step;
      RunsAgree(v, ops[..|ops| - 1]);
      StepsAgree(Run(Ram, v, ops[..|ops| - 1]).0, ops[|ops| - 1]);
    }
  }

  // ----- Each backend performs the reference run -----

  method StepStore(store: RamFs.WritableStore, op: Op) returns (out: Outcome)
    requires store.Valid() && store.nextInode < RamFs.U64_MAX
    modifies store
    ensures store.Valid() && old(store.nextInode) <= store.nextInode <= old(store.nextInode) + 1
    ensures (store.volume, out) == Step(Ram, old(store.volume), op)
  {
    hide RamFs.Lists, Represents, ValidVolume, FsSpec.Create, FsSpec.Remove, FsSpec.Rename, Overlay, ReadAt;
    hide RamFs.StorePath, RamFs.StoreTarget, VantFs.VolumePath, VantFs.VolumeTarget;
    match op
    case Create(p, kind) =>
      var r := store.Create(RamFs.TMP + p, kind);
      out := if r.Ok? then Done else Failed(r.error);
    case Remove(p, kind) =>
      var r := store.Remove(RamFs.TMP + p, kind);
      out := if r.Ok? then Done else Failed(r.error);
    case Rename(from, dest) =>
      var r := store.Rename(RamFs.TMP + from, RamFs.TMP + dest);
      out := if r.Ok? then Done else Failed(r.error);
    case Write(p, offset, source) =>
      var i := OpenStore(store, p);
      if i.Err? { return Failed(i.error); }
      var r := store.Write(i.value, offset, source);
      out := if r.Ok? then Wrote(r.value) else Failed(r.error);
    case Read(p, offset, count) =>
      var i := OpenStore(store, p);
      if i.Err? { return Failed(i.error); }
      var r := store.Read(i.value, offset, count);
      match r {
        case None => out := Stopped;
        case Some(Ok(bytes)) => out := Got(bytes);
        case Some(Err(e)) => out := Failed(e);
      }
  }

  /** Resolve a path to the inode of a file, as opening it does. */
  method OpenStore(store: RamFs.WritableStore, p: Bytes) returns (r: Result<Inode, FsError>)
    requires store.Valid()
    ensures var q := PathOf(Ram, p);
            if q.None? || !Exists(store.volume, q.value) then r == Err(NotFound)
            else if IsDir(store.volume, q.value) then r == Err(IsDirectory)
            else r.Ok? && r.value in store.paths && store.paths[r.value] == q.value
  {
    hide RamFs.Lists, Represents, ValidVolume, RamFs.StorePath;
    var i := store.ResolvePath(RamFs.TMP + p);
    var q := RamFs.StorePath(RamFs.TMP + p);
    if q.Some? { Resolved(store.tree, RamFs.TMP_INODE, store.paths, store.volume, q.value, i); }
    if i.None? { return Err(NotFound); }
    if i.value == RamFs.TMP_INODE { return Err(IsDirectory); }
    var k := store.FindInode(i.value);
    if store.nodes[k.value].fileType == Directory { return Err(IsDirectory); }
    return Ok(i.value);
  }

  method StepVolume(fs: VantFs.PersistentFilesystem, op: Op) returns (out: Outcome)
    requires fs.Valid() && fs.Zeroed()
    modifies fs
    ensures fs.Valid() && fs.Zeroed()
    ensures (fs.volume, out) == Step(Vant, old(fs.volume), op)
  {
    hide VantMount.Mounted, VantMount.ZeroTails, Represents, ValidVolume, FsSpec.Create, FsSpec.Remove, FsSpec.Rename;
    hide Overlay, ReadAt;
    hide VantFs.VolumePath, VantFs.VolumeTarget, VantMount.EntryOk;
    match op
    case Create(p, kind) =>
      var r := fs.Create(p, kind);
      out := if r.Ok? then Done else Failed(r.error);
    case Remove(p, kind) =>
      var r := fs.Remove(p, kind);
      out := if r.Ok? then Done else Failed(r.error);
    case Rename(from, dest) =>
      var r := fs.Rename(from, dest);
      out := if r.Ok? then Done else Failed(r.error);
    case Write(p, offset, source) =>
      var i := OpenVolume(fs, p);
      if i.Err? { return Failed(i.error); }
      var r := fs.Write(i.value, offset, source);
      out := if r.Ok? then Wrote(r.value) else Failed(r.error);
    case Read(p, offset, count) =>
      var i := OpenVolume(fs, p);
      if i.Err? { return Failed(i.error); }
      var r := fs.Read(i.value, offset, count);
      match r {
        case Ok(bytes) => out := Got(bytes);
        case Err(e) => out := Failed(e);
      }
  }

  method OpenVolume(fs: VantFs.PersistentFilesystem, p: Bytes) returns (r: Result<Inode, FsError>)
    requires fs.Valid()
    ensures var q := PathOf(Vant, p);
            if q.None? || !Exists(fs.volume, q.value) then r == Err(NotFound)
            else if IsDir(fs.volume, q.value) then r == Err(IsDirectory)
            else r.Ok? && r.value in fs.paths && fs.paths[r.value] == q.value
  {
    hide VantMount.Mounted, VantMount.ZeroTails, Represents, ValidVolume, VantFs.VolumePath, VantMount.EntryOk;
    var i := fs.ResolvePath(p);
    var q := VantFs.VolumePath(p);
    if q.Some? { Resolved(fs.tree, VantDisk.ROOT, fs.paths, fs.volume, q.value, i); }
    if i.None? { return Err(NotFound); }
    if i.value == VantDisk.ROOT { return Err(IsDirectory); }
    var e := fs.FindInode(i.value);
    if e.value.fileType == Directory { return Err(IsDirectory); }
    return Ok(i.value);
  }

  lemma RunSnoc(b: Backend, v: Volume, ops: seq<Op>, k: nat)
    requires ValidVolume(v) && k < |ops|
    ensures var (v', outs) := Run(b, v, ops[..k]);
            var (v'', out) := Step(b, v', ops[k]);
            Run(b, v, ops[..k + 1]) == (v'', outs + [out])
  {
    assert ops[..k + 1][..k] == ops[..k];
  }

  method RunStore(store: RamFs.WritableStore, ops: seq<Op>) returns (outs: seq<Outcome>)
    requires store.Valid() && store.nextInode + |ops| <= RamFs.U64_MAX
    modifies store
    ensures store.Valid()
    ensures (store.volume, outs) == Run(Ram, old(store.volume), ops)
  {
    hide RamFs.Lists, Represents, ValidVolume, Step;
    outs := [];
    for k := 0 to |ops|
      invariant store.Valid() && store.nextInode + (|ops| - k) <= RamFs.U64_MAX
      invariant (store.volume, outs) == Run(Ram, old(store.volume), ops[..k])
    {
      RunSnoc(Ram, old(store.volume), ops, k);
      var out := StepStore(store, ops[k]);
      outs := outs + [out];
    }
    TakeAll(ops);
  }

  method RunVolume(fs: VantFs.PersistentFilesystem, ops: seq<Op>) returns (outs: seq<Outcome>)
    requires fs.Valid() && fs.Zeroed()
    modifies fs
    ensures fs.Valid() && fs.Zeroed()
    ensures (fs.volume, outs) == Run(Vant, old(fs.volume), ops)
  {
    hide VantMount.Mounted, VantMount.ZeroTails, Represents, ValidVolume, Step;
    outs := [];
    for k := 0 to |ops|
      invariant fs.Valid() && fs.Zeroed()
      invariant (fs.volume, outs) == Run(Vant, old(fs.volume), ops[..k])
    {
      RunSnoc(Vant, old(fs.volume), ops, k);
      var out := StepVolume(fs, ops[k]);
      outs := outs + [out];
    }
    TakeAll(ops);
  }

  /**
    From empty volumes, every run of corresponding operations has the same outcomes in both backends, and leaves
    trees that are equal up to a bijection of inodes.  The bound is the RAM store's: it never reuses an inode
    number.
   */
  method SideBySide(formatted: VantDisk.Disk, ops: seq<Op>)
    returns (ram: seq<Outcome>, vant: seq<Outcome>, store: RamFs.WritableStore, fs: VantFs.PersistentFilesystem)
    requires forall s: VantDisk.Slot :: VantDisk.RecordAt(formatted, s)[0] == 0
    requires RamFs.FIRST_WRITABLE_INODE + |ops| <= RamFs.U64_MAX
    requires forall k | 0 <= k < |ops| :: Corresponding(ops[k])
    ensures ram == vant && store.Valid() && fs.Valid() && store.volume == fs.volume
    ensures ValidVolume(map[]) && (store.volume, ram) == Run(Ram, map[], ops)
    ensures forall i | i in store.tree ::
              TwinOk(store.tree, RamFs.TMP_INODE, store.paths, fs.tree, VantDisk.ROOT, fs.paths, i)
    ensures forall j | j in fs.tree ::
              TwinOk(fs.tree, VantDisk.ROOT, fs.paths, store.tree, RamFs.TMP_INODE, store.paths, j)
  {
    hide RamFs.Lists, VantMount.Mounted, VantMount.ZeroTails, Represents, ValidVolume, Run, Corresponding, TwinOk;
    store := new RamFs.WritableStore();
    fs := new VantFs.PersistentFilesystem(formatted);
    ram := RunStore(store, ops);
    vant := RunVolume(fs, ops);
    RunsAgree(map[], ops);
    SameVolumeSameTree(store.tree, RamFs.TMP_INODE, store.paths, fs.tree, VantDisk.ROOT, fs.paths, store.volume);
  }

  /** The inode of the other tree at the same path; roots correspond. */
  ghost function Twin(root: Inode, paths: Paths, root': Inode, paths': Paths, i: Inode): Inode
    requires i == root || (i in paths && paths[i] in paths'.Values)
  {
    if i == root then root' else InodeAt(paths', paths[i])
  }

  ghost predicate TwinOk(t: Tree, root: Inode, paths: Paths, t': Tree, root': Inode, paths': Paths, i: Inode)
    requires i in t
  {
    && i in paths && paths[i] in paths'.Values
    && (t[i].parent == root || (t[i].parent in paths && paths[t[i].parent] in paths'.Values))
    && var j := Twin(root, paths, root', paths', i);
       && j in t' && t'[j].content == t[i].content && t'[j].name == t[i].name
       && t'[j].parent == Twin(root, paths, root', paths', t[i].parent)
       && j in paths' && paths'[j] in paths.Values && Twin(root', paths', root, paths, j) == i
  }

  /**
    Two trees that stand for the same volume are equal up to a bijection of inodes: twins have the same name
    and content, their parents are twins, and taking the twin twice leads back.
   */
  lemma SameVolumeSameTree(t: Tree, root: Inode, paths: Paths, t': Tree, root': Inode, paths': Paths, v: Volume)
    requires Represents(t, root, paths, v) && Represents(t', root', paths', v)
    ensures forall i | i in t :: TwinOk(t, root, paths, t', root', paths', i)
    ensures forall j | j in t' :: TwinOk(t', root', paths', t, root, paths, j)
  {
    forall i | i in t ensures TwinOk(t, root, paths, t', root', paths', i) {
      TwinsMatch(t, root, paths, t', root', paths', v, i);
    }
    forall j | j in t' ensures TwinOk(t', root', paths', t, root, paths, j) {
      TwinsMatch(t', root', paths', t, root, paths, v, j);
    }
  }

  lemma TwinsMatch(t: Tree, root: Inode, paths: Paths, t': Tree, root': Inode, paths': Paths, v: Volume, i: Inode)
    requires Represents(t, root, paths, v) && Represents(t', root', paths', v) && i in t
    ensures TwinOk(t, root, paths, t', root', paths', i)
  {
    ContentAt(t, root, paths, v, i);
    assert v.Keys == paths.Values == paths'.Values;
    var j := InodeAt(paths', paths[i]);
    ContentAt(t', root', paths', v, j);
    PathNonEmpty(t, root, paths, i);
    PathNonEmpty(t', root', paths', j);
    var up, up' := t[i].parent, t'[j].parent;
    assert PathTo(paths, root, up) == PathTo(paths', root', up');
    assert t[i].name == t'[j].name;
    if up == root {
      if up' != root' { PathNonEmpty(t', root', paths', up'); }
    } else {
      PathNonEmpty(t, root, paths, up);
      ContentAt(t, root, paths, v, up);
      assert paths'[up'] == paths[up];
    }
  }

  /** A write past the limit to a directory: the RAM store names the directory, VANTFS the size. */
  method DirectoryWriteDiverges(store: RamFs.WritableStore, fs: VantFs.PersistentFilesystem,
                                i: Inode, j: Inode, source: Bytes)
    returns (ram: Result<nat, FsError>, vant: Result<nat, FsError>)
    requires store.Valid() && fs.Valid() && |source| > MAX_FILE_SIZE
    requires ContentOf(store.paths, store.volume, i) == Some(Dir) == ContentOf(fs.paths, fs.volume, j)
    modifies store, fs
    ensures ram == Err(IsDirectory) && vant == Err(FileTooLarge)
  {
    hide RamFs.Lists, VantMount.Mounted, VantMount.ZeroTails, Represents, ValidVolume;
    ram := store.Write(i, 0, source);
    vant := fs.Write(j, 0, source);
  }
}
