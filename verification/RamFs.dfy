/** The writable store of the RAM file system: a list of nodes that name their parent by inode. */
module RamFs {
  import opened Base
  import opened PathText
  import opened FsSpec
  import opened FsTree

  const TMP_INODE: Inode := 3
  const FIRST_WRITABLE_INODE: Inode := 10_000
  const U64_MAX: nat := 0xFFFF_FFFF_FFFF_FFFF

  /** "/tmp" */
  const TMP: Bytes := [47, 116, 109, 112]
  /** "/tmp/" */
  const TMP_SLASH: Bytes := [47, 116, 109, 112, 47]

  datatype WritableNode = WritableNode(
    inode: Inode, parent: Inode, name: Name, fileType: FileType, data: Bytes, len: nat)

  function NewNode(inode: Inode, parent: Inode, name: Name, fileType: FileType): WritableNode
  {
    WritableNode(inode, parent, name, fileType, Zeros(MAX_FILE_SIZE), 0)
  }

  /** The data array is full-sized, zero past the end of file, and unused by directories. */
  ghost predicate NodeShape(n: WritableNode)
  {
    && |n.data| == MAX_FILE_SIZE && n.len <= MAX_FILE_SIZE
    && (forall i | n.len <= i < MAX_FILE_SIZE :: n.data[i] == 0)
  }

  ghost function NodeOf(n: WritableNode): Node
    requires NodeShape(n)
  {
    Node(n.parent, n.name, if n.fileType == Directory then Dir else Data(n.data[..n.len]))
  }

  ghost function Inodes(nodes: seq<WritableNode>): set<Inode>
  {
    set k | 0 <= k < |nodes| :: nodes[k].inode
  }

  ghost function IndexOf(nodes: seq<WritableNode>, i: Inode): (k: nat)
    requires i in Inodes(nodes)
    ensures k < |nodes| && nodes[k].inode == i
  {
    var k :| 0 <= k < |nodes| && nodes[k].inode == i; k
  }

  /** Node `k` is the only one with its inode, and the tree holds it under that inode. */
  ghost predicate ListedAt(nodes: seq<WritableNode>, t: Tree, k: nat)
    requires k < |nodes|
  {
    var i := nodes[k].inode;
    && NodeShape(nodes[k])
    && i in Inodes(nodes) && IndexOf(nodes, i) == k
    && i in t && t[i] == NodeOf(nodes[k])
  }

  /** The node list is exactly the tree, with no inode used twice. */
  ghost predicate Lists(nodes: seq<WritableNode>, t: Tree)
  {
    && t.Keys == Inodes(nodes)
    && (forall k {:trigger nodes[k]} | 0 <= k < |nodes| :: ListedAt(nodes, t, k))
  }

  lemma ListSize(nodes: seq<WritableNode>, t: Tree)
    requires Lists(nodes, t)
    ensures |t| == |nodes|
    decreases |nodes|
  {
    assert |t| == |t.Keys|;
    if |nodes| > 0 {
      var k := |nodes| - 1;
      assert ListedAt(nodes, t, k);
      RemovedNode(nodes, t, k);
      assert nodes[..k] + nodes[k + 1..] == nodes[..k];
      var t' := t - {nodes[k].inode};
      ListSize(nodes[..k], t');
      assert t'.Keys == t.Keys - {nodes[k].inode};
      assert |t'| == |t'.Keys|;
    }
  }

  lemma PushedNode(nodes: seq<WritableNode>, t: Tree, n: WritableNode)
    requires Lists(nodes, t) && NodeShape(n) && n.inode !in t
    ensures Lists(nodes + [n], t[n.inode := NodeOf(n)])
  {
    var more, t' := nodes + [n], t[n.inode := NodeOf(n)];
    forall i ensures i in Inodes(more) <==> i in t' {
      if i in Inodes(more) {
        var k := IndexOf(more, i);
        assert k < |nodes| ==> nodes[k].inode == i;
      }
      if i in t' {
        assert i != n.inode ==> more[IndexOf(nodes, i)].inode == i;
        assert more[|nodes|].inode == n.inode;
      }
    }
    forall k | 0 <= k < |more| ensures ListedAt(more, t', k) {
      assert more[k].inode in Inodes(more);
      var j := IndexOf(more, more[k].inode);
      assert j < |nodes| ==> nodes[j].inode in t && IndexOf(nodes, nodes[j].inode) == j;
      assert k < |nodes| ==> nodes[k].inode in t && IndexOf(nodes, nodes[k].inode) == k;
    }
  }

  lemma UpdatedNode(nodes: seq<WritableNode>, t: Tree, k: nat, n: WritableNode)
    requires Lists(nodes, t) && k < |nodes| && NodeShape(n) && n.inode == nodes[k].inode
    ensures Lists(nodes[k := n], t[n.inode := NodeOf(n)])
  {
    var nodes', t' := nodes[k := n], t[n.inode := NodeOf(n)];
    forall i ensures i in Inodes(nodes') <==> i in Inodes(nodes) {
      if i in Inodes(nodes') { assert nodes[IndexOf(nodes', i)].inode == i; }
      if i in Inodes(nodes) { assert nodes'[IndexOf(nodes, i)].inode == i; }
    }
    assert nodes[k].inode in Inodes(nodes);
    forall j | 0 <= j < |nodes'| ensures ListedAt(nodes', t', j) {
      assert nodes'[j].inode in Inodes(nodes');
      var m := IndexOf(nodes', nodes'[j].inode);
      assert nodes[m].inode == nodes[j].inode;
    }
  }

  lemma RemovedNode(nodes: seq<WritableNode>, t: Tree, k: nat)
    requires Lists(nodes, t) && k < |nodes|
    ensures Lists(nodes[..k] + nodes[k + 1..], t - {nodes[k].inode})
  {
    hide NodeShape, NodeOf;
    var nodes', t' := nodes[..k] + nodes[k + 1..], t - {nodes[k].inode};
    forall i ensures i in Inodes(nodes') <==> i in t' {
      if i in Inodes(nodes') {
        var j := IndexOf(nodes', i);
        assert nodes'[j] == nodes[if j < k then j else j + 1];
      }
      if i in t' {
        var j := IndexOf(nodes, i);
        assert nodes'[if j < k then j else j - 1].inode == i;
      }
    }
    forall j | 0 <= j < |nodes'| ensures ListedAt(nodes', t', j) {
      assert nodes'[j].inode in Inodes(nodes');
      var m := IndexOf(nodes', nodes'[j].inode);
      assert nodes'[j] == nodes[if j < k then j else j + 1];
      assert nodes'[m] == nodes[if m < k then m else m + 1];
    }
  }

  /** The components of a store path: None for paths outside the store and for empty components. */
  function StorePath(path: Bytes): Option<Path>
  {
    if path == TMP then Some([])
    else if TMP_SLASH <= path then
      var cs := Split(path[|TMP_SLASH|..]);
      if [] in cs then None else Some(cs)
    else None
  }

  /** Cut a store path at its last slash. */
  function SplitParentName(path: Bytes): (r: Result<(Bytes, Name), FsError>)
  {
    if !(TMP_SLASH <= path) then Err(ReadOnly)
    else match LastSlash(path)
      case None => Err(InvalidPath)
      case Some(split) =>
        var parent := if split == 0 then [SLASH] else path[..split];
        var name := path[split + 1..];
        if name == [] then Err(InvalidPath)
        else if |name| > MAX_NAME_LEN then Err(NameTooLong)
        else Ok((parent, name))
  }

  /** What creating or renaming to a path aims at. */
  function StoreTarget(path: Bytes): Result<Target, FsError>
  {
    match SplitParentName(path)
    case Err(e) => Err(e)
    case Ok((parent, name)) => Ok(Target(StorePath(parent), name))
  }

  function StoreBytes(cs: Path): Bytes { TMP + Slashed(cs) }

  /** Canonical store paths parse to their components, and split into their parent and last component. */
  lemma CanonicalStorePath(cs: Path)
    requires PlainPath(cs)
    ensures StorePath(StoreBytes(cs)) == Some(cs)
    ensures cs != [] ==>
              StoreTarget(StoreBytes(cs)) ==
              if |cs[|cs| - 1]| > MAX_NAME_LEN then Err(NameTooLong)
              else Ok(Target(Some(cs[..|cs| - 1]), cs[|cs| - 1]))
  {
    SplitSlashed(cs);
    var path := StoreBytes(cs);
    if cs != [] {
      assert path[|TMP_SLASH|..] == Slashed(cs)[1..];
      assert TMP_SLASH <= path by { assert path[..5] == TMP_SLASH; }
      LastSlashOfSlashed(TMP, cs);
      var front := cs[..|cs| - 1];
      assert PlainName(cs[|cs| - 1]);
      ParentStorePath(front);
    }
  }

  lemma ParentStorePath(cs: Path)
    requires PlainPath(cs)
    ensures StorePath(TMP + Slashed(cs)) == Some(cs)
  {
    SplitSlashed(cs);
    if cs != [] {
      var path := TMP + Slashed(cs);
      assert path[|TMP_SLASH|..] == Slashed(cs)[1..];
      assert TMP_SLASH <= path by { assert path[..5] == TMP_SLASH; }
    }
  }

  class WritableStore {
    var nodes: seq<WritableNode>
    var nextInode: Inode

    // The tree, its paths and the volume the node list stands for.
    ghost var tree: Tree
    ghost var paths: Paths
    ghost var volume: Volume

    ghost predicate Valid()
      reads this
    {
      && Lists(nodes, tree)
      && |nodes| == |volume| <= MAX_NODES
      && ValidVolume(volume)
      && paths.Keys == tree.Keys
      && Represents(tree, TMP_INODE, paths, volume)
      && (forall i | i in tree :: FIRST_WRITABLE_INODE <= i < nextInode)
      && FIRST_WRITABLE_INODE <= nextInode <= U64_MAX
    }

    constructor ()
      ensures Valid()
      ensures volume == map[] && nextInode == FIRST_WRITABLE_INODE
    {
      nodes, nextInode := [], FIRST_WRITABLE_INODE;
      tree, paths, volume := map[], map[], map[];
      EmptyRepresents(TMP_INODE);
    }

    method Child(parent: Inode, name: Name) returns (r: Option<Inode>)
      requires Valid()
      ensures IsChildLookup(tree, parent, name, r)
    {
      hide Represents, ValidVolume, NodeShape;
      for k := 0 to |nodes|
        invariant forall j | 0 <= j < k :: !(nodes[j].parent == parent && nodes[j].name == name)
      {
        if nodes[k].parent == parent && nodes[k].name == name {
          return Some(nodes[k].inode);
        }
      }
      assert forall i | i in tree :: nodes[IndexOf(nodes, i)].inode == i;
      return None;
    }

    method FindInode(inode: Inode) returns (r: Option<nat>)
      requires Valid()
      ensures r.Some? <==> inode in tree
      ensures r.Some? ==> r.value < |nodes| && nodes[r.value].inode == inode
      ensures r.Some? ==> NodeShape(nodes[r.value]) && tree[inode] == NodeOf(nodes[r.value])
    {
      hide Represents, ValidVolume, NodeShape;
      for k := 0 to |nodes|
        invariant forall j | 0 <= j < k :: nodes[j].inode != inode
      {
        if nodes[k].inode == inode {
          assert ListedAt(nodes, tree, k);
          return Some(k);
        }
      }
      return None;
    }

    /** Walk down from /tmp, one component at a time. */
    method ResolvePath(path: Bytes) returns (r: Option<Inode>)
      requires Valid()
      ensures StorePath(path).None? ==> r.None?
      ensures StorePath(path).Some? ==> IsResolution(tree, TMP_INODE, paths, StorePath(path).value, r)
    {
      if path == TMP { return Some(TMP_INODE); }
      if !(TMP_SLASH <= path) { return None; }
      r := Walk(Split(path[|TMP_SLASH|..]));
    }

    method Walk(cs: Path) returns (r: Option<Inode>)
      requires Valid()
      ensures [] in cs ==> r.None?
      ensures [] !in cs ==> IsResolution(tree, TMP_INODE, paths, cs, r)
    {
      hide Lists, ValidVolume;
      var parent := TMP_INODE;
      for k := 0 to |cs|
        invariant [] !in cs[..k]
        invariant Live(tree, TMP_INODE, parent) && PathTo(paths, TMP_INODE, parent) == cs[..k]
      {
        if cs[k] == [] { return None; }
        var child := Child(parent, cs[k]);
        WalkStep(tree, TMP_INODE, paths, cs, k, parent, child);
        if child.None? { return None; }
        parent := child.value;
        TakeSnoc(cs, k);
      }
      TakeAll(cs);
      return Some(parent);
    }

    /** Climb from `candidate` to /tmp; the length of its path is what shrinks. */
    method IsDescendant(candidate: Inode, ancestor: Inode) returns (r: bool)
      requires Valid()
      requires Live(tree, TMP_INODE, candidate) && ancestor in tree
      ensures r <==> paths[ancestor] <= PathTo(paths, TMP_INODE, candidate)
    {
      PathNonEmpty(tree, TMP_INODE, paths, ancestor);
      var c := candidate;
      while c != TMP_INODE
        invariant Live(tree, TMP_INODE, c)
        invariant paths[ancestor] <= PathTo(paths, TMP_INODE, candidate) <==>
                    paths[ancestor] <= PathTo(paths, TMP_INODE, c)
        decreases |PathTo(paths, TMP_INODE, c)|
      {
        ClimbStep(tree, TMP_INODE, paths, c, ancestor);
        if c == ancestor { return true; }
        var k := FindInode(c);
        if k.None? { return false; }
        c := nodes[k.value].parent;
      }
      return false;
    }

    /** The checks create and rename share: the parent is a directory of the store and the name is free in it. */
    method FindTarget(path: Bytes) returns (r: Result<(Inode, Name), FsError>)
      requires Valid()
      ensures ErrorOf(r) == TargetError(volume, StoreTarget(path))
      ensures r.Ok? ==> StoreTarget(path) == Ok(Target(Some(PathTo(paths, TMP_INODE, r.value.0)), r.value.1))
      ensures r.Ok? ==> DirAt(tree, TMP_INODE, r.value.0)
    {
      var split := SplitParentName(path);
      if split.Err? { return Err(split.error); }
      var (parentPath, name) := split.value;
      var parent := ResolvePath(parentPath);
      if StorePath(parentPath).Some? { Resolved(tree, TMP_INODE, paths, volume, StorePath(parentPath).value, parent); }
      if parent.None? { return Err(NotFound); }
      if parent.value != TMP_INODE {
        var k := FindInode(parent.value);
        if k.None? || nodes[k.value].fileType != Directory { return Err(NotDirectory); }
      }
      var clash := Child(parent.value, name);
      TargetFree(tree, TMP_INODE, paths, volume, parent.value, name, clash);
      if clash.Some? { return Err(AlreadyExists); }
      return Ok((parent.value, name));
    }

    method Create(path: Bytes, fileType: FileType) returns (r: Result<Inode, FsError>)
      requires Valid()
      modifies this
      ensures Valid()
      ensures r.Err? ==> unchanged(this)
      ensures old(nextInode) < U64_MAX ==>
                (volume, ErrorOf(r)) == FsSpec.Create(old(volume), StoreTarget(path), fileType)
      ensures old(nextInode) == U64_MAX ==>
                r == Err(FsSpec.Create(old(volume), StoreTarget(path), fileType).1.GetOr(NoSpace))
      ensures r.Ok? ==> r.value == old(nextInode) && nextInode == r.value + 1
      ensures r.Ok? ==> r.value !in old(paths) && paths == old(paths)[r.value := DestOf(path)]
    {
      hide Lists, Represents, ValidVolume, FsSpec.Create, TargetError, StoreTarget, PathTo, DirAt, NewNode, Slashed;
      CreateRefused(volume, StoreTarget(path), fileType);
      var target := FindTarget(path);
      if target.Err? { return Err(target.error); }
      var (parent, name) := target.value;
      if |nodes| == MAX_NODES { return Err(NoSpace); }
      var inode := nextInode;
      if nextInode == U64_MAX { return Err(NoSpace); }
      nextInode := nextInode + 1;
      Append(inode, parent, name, fileType);
      return Ok(inode);
    }

    /** Append a fresh node below a directory, under a name that is free there. */
    method Append(inode: Inode, parent: Inode, name: Name, fileType: FileType)
      requires Lists(nodes, tree) && |nodes| == |volume| < MAX_NODES && ValidVolume(volume)
      requires paths.Keys == tree.Keys && Represents(tree, TMP_INODE, paths, volume)
      requires inode != TMP_INODE && inode !in tree && DirAt(tree, TMP_INODE, parent)
      requires TargetError(volume, Ok(Target(Some(PathTo(paths, TMP_INODE, parent)), name))).None?
      modifies this`nodes, this`tree, this`paths, this`volume
      ensures Lists(nodes, tree) && |nodes| == |volume| <= MAX_NODES && ValidVolume(volume)
      ensures paths.Keys == tree.Keys && Represents(tree, TMP_INODE, paths, volume)
      ensures forall i | i in tree :: i in old(tree) || i == inode
      ensures paths == old(paths)[inode := PathTo(old(paths), TMP_INODE, parent) + [name]]
      ensures (volume, None) ==
              FsSpec.Create(old(volume), Ok(Target(Some(PathTo(old(paths), TMP_INODE, parent)), name)), fileType)
    {
      hide *;
      var n := NewNode(inode, parent, name, fileType);
      PushState(nodes, tree, paths, volume, inode, parent, name, fileType);
      ghost var p := PathTo(paths, TMP_INODE, parent) + [name];
      nodes := nodes + [n];
      tree, paths, volume := tree[inode := NodeOf(n)], paths[inode := p], volume[p := Empty(fileType)];
    }

    method Write(inode: Inode, offset: nat, source: Bytes) returns (r: Result<nat, FsError>)
      requires Valid()
      modifies this
      ensures Valid() && paths == old(paths) && nextInode == old(nextInode)
      ensures r.Err? ==> unchanged(this)
      ensures ErrorOf(r) == StoreWriteError(ContentOf(old(paths), old(volume), inode), offset + |source|)
      ensures r.Ok? ==> r.value == |source| && volume == Written(old(paths), old(volume), inode, offset, source)
    {
      hide Lists, Represents, WellFormed;
      var k := FindInode(inode);
      if k.None? { return Err(NotFound); }
      ContentAt(tree, TMP_INODE, paths, volume, inode);
      var n := nodes[k.value];
      if n.fileType != File { return Err(IsDirectory); }
      var end := offset + |source|;
      if end > |n.data| { return Err(FileTooLarge); }
      WriteState(nodes, tree, paths, volume, k.value, offset, source);
      var n' := n.(data := Patch(n.data, offset, source), len := Max(n.len, end));
      nodes := nodes[k.value := n'];
      tree, volume := tree[inode := NodeOf(n')], volume[paths[inode] := NodeOf(n').content];
      return Ok(|source|);
    }

    /**
      No result means the kernel stops: the data array is sliced at `offset` even when nothing is left to copy,
      so an offset past the array is fatal, for a file and only for a file.
     */
    method Read(inode: Inode, offset: nat, out: nat) returns (r: Option<Result<Bytes, FsError>>)
      requires Valid()
      ensures r == match ContentOf(paths, volume, inode)
                   case None => Some(Err(NotFound))
                   case Some(Dir) => Some(Err(IsDirectory))
                   case Some(Data(bytes)) =>
                     if offset <= MAX_FILE_SIZE then Some(Ok(ReadAt(bytes, offset, out))) else None
    {
      hide Lists, Represents, WellFormed;
      var k := FindInode(inode);
      if k.None? { return Some(Err(NotFound)); }
      ContentAt(tree, TMP_INODE, paths, volume, inode);
      var n := nodes[k.value];
      if n.fileType != File { return Some(Err(IsDirectory)); }
      var count := Min(Max(0, n.len - offset), out);
      if offset > |n.data| { return None; }
      assert n.data[offset..offset + count] == ReadAt(n.data[..n.len], offset, out);
      return Some(Ok(n.data[offset..offset + count]));
    }

    method AnyChildOf(inode: Inode) returns (r: bool)
      requires Valid()
      ensures r <==> exists j :: j in tree && tree[j].parent == inode
    {
      hide Represents, ValidVolume, NodeShape;
      for k := 0 to |nodes|
        invariant forall j | 0 <= j < k :: nodes[j].parent != inode
      {
        if nodes[k].parent == inode {
          assert tree[nodes[k].inode].parent == inode;
          return true;
        }
      }
      assert forall j | j in tree :: nodes[IndexOf(nodes, j)].inode == j;
      return false;
    }

    method Remove(path: Bytes, expected: FileType) returns (r: Result<Inode, FsError>)
      requires Valid()
      modifies this
      ensures Valid() && nextInode == old(nextInode)
      ensures r.Err? ==> unchanged(this)
      ensures (volume, ErrorOf(r)) == FsSpec.Remove(old(volume), StorePath(path), expected)
      ensures r.Ok? ==> r.value in old(paths) && Some(old(paths)[r.value]) == StorePath(path)
      ensures r.Ok? ==> paths == old(paths) - {r.value}
    {
      hide Lists, Represents, ValidVolume, FsSpec.Remove, PathTo, IsResolution, NodeShape;
      RemoveRefused(volume, StorePath(path), expected);
      var inode := ResolvePath(path);
      if StorePath(path).Some? { Resolved(tree, TMP_INODE, paths, volume, StorePath(path).value, inode); }
      if inode.None? { return Err(NotFound); }
      if inode.value == TMP_INODE { return Err(ReadOnly); }
      var index := FindInode(inode.value);
      if index.None? { return Err(NotFound); }
      DeleteRefused(tree, TMP_INODE, paths, volume, inode.value, expected);
      if nodes[index.value].fileType != expected {
        return Err(if expected == File then IsDirectory else NotDirectory);
      }
      var hasChild := AnyChildOf(inode.value);
      if expected == Directory && hasChild { return Err(DirectoryNotEmpty); }
      DropAt(index.value, expected);
      return Ok(inode.value);
    }

    /** Take the node at index `k` out of the list. */
    method DropAt(k: nat, kind: FileType)
      requires Valid() && k < |nodes| && nodes[k].fileType == kind
      requires kind == Directory ==> forall j | j in tree :: tree[j].parent != nodes[k].inode
      modifies this`nodes, this`tree, this`paths, this`volume
      ensures Valid()
      ensures old(nodes[k].inode) in old(paths)
      ensures paths == old(paths) - {old(nodes[k].inode)}
      ensures (volume, None) == FsSpec.Remove(old(volume), Some(old(paths)[old(nodes[k].inode)]), kind)
    {
      hide Lists, Represents, ValidVolume, FsSpec.Remove, NodeShape;
      RemoveState(nodes, tree, paths, volume, k, kind);
      var i := nodes[k].inode;
      nodes := nodes[..k] + nodes[k + 1..];
      tree, paths, volume := tree - {i}, paths - {i}, volume - {paths[i]};
    }

    method Rename(oldPath: Bytes, newPath: Bytes) returns (r: Result<Inode, FsError>)
      requires Valid()
      modifies this
      ensures Valid() && nextInode == old(nextInode)
      ensures r.Err? ==> unchanged(this)
      ensures (volume, ErrorOf(r)) == FsSpec.Rename(old(volume), StorePath(oldPath), StoreTarget(newPath))
      ensures r.Ok? ==> r.value in old(paths) && Some(old(paths)[r.value]) == StorePath(oldPath)
      ensures r.Ok? ==> paths == MovedPaths(old(paths), r.value, DestOf(newPath))
    {
      hide Lists, Represents, WellFormed, ValidVolume, FsSpec.Rename, TargetError, StoreTarget, PathTo, MovedPaths;
      RenameRefused(volume, StorePath(oldPath), StoreTarget(newPath));
      var inode := ResolvePath(oldPath);
      if StorePath(oldPath).Some? { Resolved(tree, TMP_INODE, paths, volume, StorePath(oldPath).value, inode); }
      if inode.None? { return Err(NotFound); }
      if inode.value == TMP_INODE { return Err(ReadOnly); }
      var target := FindTarget(newPath);
      if target.Err? { return Err(target.error); }
      var (newParent, newName) := target.value;
      var index := FindInode(inode.value);
      RenameState(nodes, tree, paths, volume, index.value, newParent, newName);
      var below := IsDescendant(newParent, inode.value);
      if below { return Err(InvalidPath); }
      Relink(index.value, newParent, newName);
      return Ok(inode.value);
    }

    /** Give the node at index `k` another parent, outside its own subtree, and another name. */
    method Relink(k: nat, parent: Inode, name: Name)
      requires Valid() && k < |nodes| && NodeShape(nodes[k]) && DirAt(tree, TMP_INODE, parent)
      requires nodes[k].inode in paths && !(paths[nodes[k].inode] <= PathTo(paths, TMP_INODE, parent))
      requires TargetError(volume, Ok(Target(Some(PathTo(paths, TMP_INODE, parent)), name))).None?
      modifies this`nodes, this`tree, this`paths, this`volume
      ensures Valid()
      ensures paths == MovedPaths(old(paths), old(nodes[k].inode), PathTo(old(paths), TMP_INODE, parent) + [name])
      ensures (volume, None) == FsSpec.Rename(old(volume), Some(old(paths)[old(nodes[k].inode)]),
                                              Ok(Target(Some(PathTo(old(paths), TMP_INODE, parent)), name)))
    {
      hide Lists, Represents, ValidVolume, FsSpec.Rename, NodeShape, MovedPaths, TargetError, PathTo;
      RenameState(nodes, tree, paths, volume, k, parent, name);
      var i := nodes[k].inode;
      ghost var up := PathTo(paths, TMP_INODE, parent);
      ghost var renamed := FsSpec.Rename(volume, Some(paths[i]), Ok(Target(Some(up), name)));
      var n := nodes[k].(parent := parent, name := name);
      nodes := nodes[k := n];
      tree, paths, volume := tree[i := NodeOf(n)], MovedPaths(paths, i, up + [name]), renamed.0;
    }
  }

  /** Overwriting the node at index `k` with one of the same inode, parent, name and kind. */
  lemma WriteState(nodes: seq<WritableNode>, t: Tree, paths: Paths, v: Volume, k: nat, offset: nat, source: Bytes)
    requires Lists(nodes, t) && k < |nodes| && Represents(t, TMP_INODE, paths, v)
    requires NodeShape(nodes[k]) && nodes[k].fileType == File && offset + |source| <= MAX_FILE_SIZE
    ensures var n := nodes[k];
            var n' := n.(data := Patch(n.data, offset, source), len := Max(n.len, offset + |source|));
            && n.inode in t && n.inode in paths && t[n.inode].content.Data? && NodeShape(n')
            && t[n.inode].content == Data(n.data[..n.len])
            && NodeOf(n') == t[n.inode].(content := Data(Overlay(n.data[..n.len], offset, source)))
            && Lists(nodes[k := n'], t[n.inode := NodeOf(n')])
            && Represents(t[n.inode := NodeOf(n')], TMP_INODE, paths, v[paths[n.inode] := NodeOf(n').content])
  {
    assert ListedAt(nodes, t, k);
    var n := nodes[k];
    var n' := n.(data := Patch(n.data, offset, source), len := Max(n.len, offset + |source|));
    assert n'.data[..n'.len] == Overlay(n.data[..n.len], offset, source);
    UpdatedNode(nodes, t, k, n');
    RewriteNode(t, TMP_INODE, paths, v, n.inode, n'.data[..n'.len]);
  }

  lemma RemoveState(nodes: seq<WritableNode>, t: Tree, paths: Paths, v: Volume, k: nat, kind: FileType)
    requires Lists(nodes, t) && k < |nodes| && Represents(t, TMP_INODE, paths, v)
    requires nodes[k].fileType == kind
    requires kind == Directory ==> forall j | j in t :: t[j].parent != nodes[k].inode
    ensures var i := nodes[k].inode;
            && i in t && i in paths && paths[i] in v
            && FsSpec.Remove(v, Some(paths[i]), kind) == (v - {paths[i]}, None)
            && Lists(nodes[..k] + nodes[k + 1..], t - {i})
            && Represents(t - {i}, TMP_INODE, paths - {i}, v - {paths[i]})
            && |nodes[..k] + nodes[k + 1..]| == |v - {paths[i]}|
            && ValidVolume(v - {paths[i]})
            && (t - {i}).Keys == t.Keys - {i} && (paths - {i}).Keys == t.Keys - {i}
  {
    assert ListedAt(nodes, t, k);
    var i := nodes[k].inode;
    ContentAt(t, TMP_INODE, paths, v, i);
    DeleteNode(t, TMP_INODE, paths, v, i, kind);
    RemovedNode(nodes, t, k);
    ListSize(nodes[..k] + nodes[k + 1..], t - {i});
  }

  lemma RenameState(nodes: seq<WritableNode>, t: Tree, paths: Paths, v: Volume, k: nat, parent: Inode, name: Name)
    requires Lists(nodes, t) && k < |nodes| && Represents(t, TMP_INODE, paths, v) && NodeShape(nodes[k])
    requires DirAt(t, TMP_INODE, parent)
    requires TargetError(v, Ok(Target(Some(PathTo(paths, TMP_INODE, parent)), name))).None?
    ensures nodes[k].inode in t && nodes[k].inode in paths
    ensures var n := nodes[k];
            var n' := n.(parent := parent, name := name);
            var r := FsSpec.Rename(v, Some(paths[n.inode]), Ok(Target(Some(PathTo(paths, TMP_INODE, parent)), name)));
            if paths[n.inode] <= PathTo(paths, TMP_INODE, parent) then r == (v, Some(InvalidPath))
            else
              && r.1.None? && NodeShape(n') && |r.0| == |nodes|
              && MovedPaths(paths, n.inode, PathTo(paths, TMP_INODE, parent) + [name]).Keys == paths.Keys
              && Lists(nodes[k := n'], t[n.inode := NodeOf(n')])
              && Represents(t[n.inode := NodeOf(n')], TMP_INODE,
                            MovedPaths(paths, n.inode, PathTo(paths, TMP_INODE, parent) + [name]), r.0)
  {
    assert ListedAt(nodes, t, k);
    ListSize(nodes, t);
    var n := nodes[k];
    var n' := n.(parent := parent, name := name);
    ContentAt(t, TMP_INODE, paths, v, n.inode);
    assert NodeShape(n') && NodeOf(n') == Node(parent, name, t[n.inode].content);
    hide *;
    UpdatedNode(nodes, t, k, n');
    RelinkNode(t, TMP_INODE, paths, v, n.inode, parent, name);
    MovedKeys(paths, n.inode, PathTo(paths, TMP_INODE, parent) + [name]);
  }

  /** Appending a fresh node below a directory, under a name that is free there. */
  lemma PushState(nodes: seq<WritableNode>, t: Tree, paths: Paths, v: Volume,
                  inode: Inode, parent: Inode, name: Name, fileType: FileType)
    requires Lists(nodes, t) && |nodes| < MAX_NODES && Represents(t, TMP_INODE, paths, v)
    requires inode != TMP_INODE && inode !in t && DirAt(t, TMP_INODE, parent)
    requires TargetError(v, Ok(Target(Some(PathTo(paths, TMP_INODE, parent)), name))).None?
    ensures NodeShape(NewNode(inode, parent, name, fileType))
    ensures var n := NewNode(inode, parent, name, fileType);
            var p := PathTo(paths, TMP_INODE, parent) + [name];
            var t', v' := t[inode := NodeOf(n)], v[p := Empty(fileType)];
            && Lists(nodes + [n], t') && |nodes + [n]| == |v'| && ValidVolume(v')
            && Represents(t', TMP_INODE, paths[inode := p], v')
            && FsSpec.Create(v, Ok(Target(Some(PathTo(paths, TMP_INODE, parent)), name)), fileType) == (v', None)
  {
    var n := NewNode(inode, parent, name, fileType);
    ListSize(nodes, t);
    assert |v| == |t|;
    assert NodeShape(n) && NodeOf(n) == Node(parent, name, Empty(fileType)) by {
      assert n.data[..0] == [];
    }
    assert ValidVolume(FsSpec.Create(v, Ok(Target(Some(PathTo(paths, TMP_INODE, parent)), name)), fileType).0);
    hide Represents, TargetError, FsSpec.Create, PathTo, ValidVolume, Lists, NewNode, NodeOf, NodeShape;
    CreateNode(t, TMP_INODE, paths, v, inode, parent, name, fileType);
    PushedNode(nodes, t, n);
    ListSize(nodes + [n], t[inode := NodeOf(n)]);
    RepresentsSize(t[inode := NodeOf(n)], TMP_INODE, paths[inode := PathTo(paths, TMP_INODE, parent) + [name]],
                   v[PathTo(paths, TMP_INODE, parent) + [name] := Empty(fileType)]);
  }

  ghost function DestOf(path: Bytes): Path
  {
    match StoreTarget(path)
    case Ok(Target(Some(parent), name)) => parent + [name]
    case _ => []
  }
}
