/** The inode tree both backends keep; the ghost map `paths` gives every node the components that lead to it. */
module FsTree {
  import opened Base
  import opened PathText
  import opened FsSpec

  type Inode = nat

  datatype Node = Node(parent: Inode, name: Name, content: Content)

  type Tree = map<Inode, Node>

  type Paths = map<Inode, Path>

  function PathTo(paths: Paths, root: Inode, i: Inode): Path
  {
    if i == root || i !in paths then [] else paths[i]
  }

  predicate Live(t: Tree, root: Inode, i: Inode) { i == root || i in t }

  predicate DirAt(t: Tree, root: Inode, i: Inode) { i == root || (i in t && t[i].content.Dir?) }

  ghost predicate WellFormed(t: Tree, root: Inode, paths: Paths)
  {
    && root !in t
    && paths.Keys == t.Keys
    && (forall i {:trigger NodeOk(t, root, paths, i)} | i in t :: NodeOk(t, root, paths, i))
    && Injective(paths)
  }

  /** The node hangs below a live directory, and its path extends that directory's path by its name. */
  ghost predicate NodeOk(t: Tree, root: Inode, paths: Paths, i: Inode)
    requires i in t && i in paths
  {
    && DirAt(t, root, t[i].parent)
    && paths[i] == PathTo(paths, root, t[i].parent) + [t[i].name]
  }

  ghost predicate Injective(paths: Paths)
  {
    forall i {:trigger paths[i]} | i in paths :: paths[i] in paths.Values && InodeAt(paths, paths[i]) == i
  }

  /** The inode at a path that some inode has. */
  ghost function InodeAt(paths: Paths, q: Path): (i: Inode)
    requires q in paths.Values
    ensures i in paths && paths[i] == q
  {
    var i :| i in paths && paths[i] == q; i
  }

  /** The volume an inode tree stands for. */
  ghost function VolumeOf(t: Tree, paths: Paths): (v: Volume)
    requires paths.Keys == t.Keys && Injective(paths)
    ensures v.Keys == paths.Values
    ensures forall i {:trigger paths[i]} | i in t :: paths[i] in v && v[paths[i]] == t[i].content
    ensures forall q {:trigger q in v} {:trigger v[q]} | q in v ::
              InodeAt(paths, q) in t && paths[InodeAt(paths, q)] == q && v[q] == t[InodeAt(paths, q)].content
  {
    map q | q in paths.Values :: t[InodeAt(paths, q)].content
  }

  /** What a correct search for the child `name` of `parent` returns. */
  ghost predicate IsChildLookup(t: Tree, parent: Inode, name: Name, r: Option<Inode>)
  {
    && (r.Some? ==> r.value in t && t[r.value].parent == parent && t[r.value].name == name)
    && (r.None? ==> forall i | i in t :: !(t[i].parent == parent && t[i].name == name))
  }

  /** What a correct walk down from the root along `q` returns. */
  ghost predicate IsResolution(t: Tree, root: Inode, paths: Paths, q: Path, r: Option<Inode>)
    requires WellFormed(t, root, paths)
  {
    && (r.Some? ==> Live(t, root, r.value) && PathTo(paths, root, r.value) == q)
    && (r.None? ==> !Exists(VolumeOf(t, paths), q))
  }

  lemma PathNonEmpty(t: Tree, root: Inode, paths: Paths, i: Inode)
    requires WellFormed(t, root, paths) && i in t
    ensures paths[i] != []
    ensures paths[i] == PathTo(paths, root, t[i].parent) + [t[i].name]
    ensures Parent(paths[i]) == PathTo(paths, root, t[i].parent)
    ensures DirAt(t, root, t[i].parent)
  {
    assert NodeOk(t, root, paths, i);
  }

  lemma PathToInjective(t: Tree, root: Inode, paths: Paths, i: Inode, j: Inode)
    requires WellFormed(t, root, paths) && Live(t, root, i) && Live(t, root, j)
    requires PathTo(paths, root, i) == PathTo(paths, root, j)
    ensures i == j
  {
    if i in t { PathNonEmpty(t, root, paths, i); }
    if j in t { PathNonEmpty(t, root, paths, j); }
  }

  /** Being the child `name` of `parent` is the same as having the path that ends in `name` below `parent`. */
  lemma ChildIffPath(t: Tree, root: Inode, paths: Paths, parent: Inode, name: Name, i: Inode)
    requires WellFormed(t, root, paths) && Live(t, root, parent) && i in t
    ensures t[i].parent == parent && t[i].name == name <==> paths[i] == PathTo(paths, root, parent) + [name]
  {
    PathNonEmpty(t, root, paths, i);
    var up := PathTo(paths, root, t[i].parent);
    if paths[i] == PathTo(paths, root, parent) + [name] {
      assert Parent(paths[i]) == PathTo(paths, root, parent);
      PathToInjective(t, root, paths, t[i].parent, parent);
    }
  }

  /** One step of the walk: a child lookup extends a resolution by one component. */
  lemma ChildExtends(t: Tree, root: Inode, paths: Paths, parent: Inode, name: Name, r: Option<Inode>)
    requires WellFormed(t, root, paths) && Live(t, root, parent)
    requires IsChildLookup(t, parent, name, r)
    ensures IsResolution(t, root, paths, PathTo(paths, root, parent) + [name], r)
  {
    var p := PathTo(paths, root, parent) + [name];
    var v := VolumeOf(t, paths);
    if r.Some? {
      ChildIffPath(t, root, paths, parent, name, r.value);
    } else {
      if p in v {
        var i := InodeAt(paths, p);
        ChildIffPath(t, root, paths, parent, name, i);
      }
    }
  }

  lemma TreeShape(t: Tree, root: Inode, paths: Paths)
    requires WellFormed(t, root, paths)
    ensures TreeShaped(VolumeOf(t, paths))
  {
    var v := VolumeOf(t, paths);
    forall q | q in v ensures q != [] && IsDir(v, Parent(q)) {
      PathNonEmpty(t, root, paths, InodeAt(paths, q));
    }
  }

  /** The walk along `cs` after `k` components: one more lookup either goes on or shows that `cs` leads nowhere. */
  lemma WalkStep(t: Tree, root: Inode, paths: Paths, cs: Path, k: nat, parent: Inode, child: Option<Inode>)
    requires WellFormed(t, root, paths) && k < |cs|
    requires Live(t, root, parent) && PathTo(paths, root, parent) == cs[..k]
    requires IsChildLookup(t, parent, cs[k], child)
    ensures child.Some? ==> child.value in t && PathTo(paths, root, child.value) == cs[..k + 1]
    ensures child.None? ==> IsResolution(t, root, paths, cs, None)
  {
    assert cs[..k + 1] == cs[..k] + [cs[k]];
    ChildExtends(t, root, paths, parent, cs[k], child);
    if child.None? && cs in VolumeOf(t, paths) {
      TreeShape(t, root, paths);
      PrefixExists(VolumeOf(t, paths), cs, cs[..k + 1]);
    }
  }

  lemma InjectiveSize(paths: Paths)
    requires Injective(paths)
    ensures |paths.Values| == |paths|
    decreases |paths|
  {
    if paths.Keys == {} {
      assert |paths.Keys| == 0;
      assert paths.Values == {};
    } else {
      var i :| i in paths;
      var less := paths - {i};
      assert less.Keys == paths.Keys - {i};
      InjectiveSize(less);
      assert less.Values == paths.Values - {paths[i]} by {
        forall q | q in paths.Values && q != paths[i] ensures q in less.Values {
          var j := InodeAt(paths, q);
          assert less[j] == q;
        }
        forall q | q in less.Values ensures q in paths.Values && q != paths[i] {
          var j := InodeAt(less, q);
          assert paths[j] == q;
        }
      }
      assert paths[i] in paths.Values;
      assert |paths.Keys| == |less.Keys| + 1;
    }
  }

  ghost predicate WithinLimits(t: Tree)
  {
    && |t| <= MAX_NODES
    && (forall i | i in t && t[i].content.Data? :: |t[i].content.bytes| <= MAX_FILE_SIZE)
  }

  /** Kind and existence can be read off the resolved inode. */
  lemma ResolvedKind(t: Tree, root: Inode, paths: Paths, q: Path, r: Option<Inode>)
    requires WellFormed(t, root, paths) && IsResolution(t, root, paths, q, r)
    ensures r.Some? <==> Exists(VolumeOf(t, paths), q)
    ensures r.Some? ==> (r.value == root <==> q == [])
    ensures r.Some? && q != [] ==> r.value in t && paths[r.value] == q && VolumeOf(t, paths)[q] == t[r.value].content
    ensures r.Some? ==> (DirAt(t, root, r.value) <==> IsDir(VolumeOf(t, paths), q))
  {
    if r.Some? && r.value in t { PathNonEmpty(t, root, paths, r.value); }
  }

  lemma ChildrenMatch(t: Tree, root: Inode, paths: Paths, i: Inode)
    requires WellFormed(t, root, paths) && i in t
    ensures HasChild(VolumeOf(t, paths), paths[i]) <==> exists j :: j in t && t[j].parent == i
  {
    var v := VolumeOf(t, paths);
    if HasChild(v, paths[i]) {
      var c :| c in v && c != [] && Parent(c) == paths[i];
      var j := InodeAt(paths, c);
      PathNonEmpty(t, root, paths, j);
      PathToInjective(t, root, paths, t[j].parent, i);
    }
    if j :| j in t && t[j].parent == i {
      PathNonEmpty(t, root, paths, j);
      assert paths[j] in v && Parent(paths[j]) == paths[i];
    }
  }

  lemma FilesHaveNoChildren(t: Tree, root: Inode, paths: Paths, i: Inode)
    requires WellFormed(t, root, paths) && i in t && t[i].content.Data?
    ensures forall j | j in t :: t[j].parent != i
  {
    forall j | j in t ensures t[j].parent != i {
      PathNonEmpty(t, root, paths, j);
    }
  }

  lemma AddedWellFormed(t: Tree, root: Inode, paths: Paths, i: Inode, node: Node)
    requires WellFormed(t, root, paths) && i != root && i !in t && DirAt(t, root, node.parent)
    requires PathTo(paths, root, node.parent) + [node.name] !in paths.Values
    ensures WellFormed(t[i := node], root, paths[i := PathTo(paths, root, node.parent) + [node.name]])
  {
    hide NodeOk, Injective;
    var p := PathTo(paths, root, node.parent) + [node.name];
    var t', paths' := t[i := node], paths[i := p];
    forall j | j in t' ensures NodeOk(t', root, paths', j) { AddedNode(t, root, paths, i, node, j); }
    AddedInjective(paths, i, p);
  }

  lemma AddedNode(t: Tree, root: Inode, paths: Paths, i: Inode, node: Node, j: Inode)
    requires WellFormed(t, root, paths) && i != root && i !in t && DirAt(t, root, node.parent) && (j in t || j == i)
    ensures NodeOk(t[i := node], root, paths[i := PathTo(paths, root, node.parent) + [node.name]], j)
  {
    hide Injective;
    if j != i { assert NodeOk(t, root, paths, j); }
  }

  lemma AddedInjective(paths: Paths, i: Inode, p: Path)
    requires Injective(paths) && i !in paths && p !in paths.Values
    ensures Injective(paths[i := p])
  {
    var paths' := paths[i := p];
    forall j | j in paths' ensures paths'[j] in paths'.Values && InodeAt(paths', paths'[j]) == j {
      if j != i { assert paths[j] in paths.Values; }
      var k := InodeAt(paths', paths'[j]);
      if k != i { assert paths[k] in paths.Values && InodeAt(paths, paths[k]) == k; }
    }
  }

  /** Adding a node below a directory, at a path that was free. */
  lemma AddNode(t: Tree, root: Inode, paths: Paths, i: Inode, node: Node)
    requires WellFormed(t, root, paths) && i != root && i !in t && DirAt(t, root, node.parent)
    requires PathTo(paths, root, node.parent) + [node.name] !in VolumeOf(t, paths)
    ensures var p := PathTo(paths, root, node.parent) + [node.name];
            && WellFormed(t[i := node], root, paths[i := p])
            && VolumeOf(t[i := node], paths[i := p]) == VolumeOf(t, paths)[p := node.content]
  {
    AddedWellFormed(t, root, paths, i, node);
    AddedVolume(t, paths, i, PathTo(paths, root, node.parent) + [node.name], node);
  }

  lemma AddedVolume(t: Tree, paths: Paths, i: Inode, p: Path, node: Node)
    requires paths.Keys == t.Keys && Injective(paths) && i !in t && Injective(paths[i := p])
    ensures VolumeOf(t[i := node], paths[i := p]) == VolumeOf(t, paths)[p := node.content]
  {
    var t', paths' := t[i := node], paths[i := p];
    var v' := VolumeOf(t, paths)[p := node.content];
    forall j | j in t' ensures paths'[j] in v' && v'[paths'[j]] == t'[j].content {
      if j != i {
        assert paths'[j] == paths[j] && paths'[i] == p;
      }
    }
    forall q | q in v' ensures q in paths'.Values {
      if q == p {
        assert paths'[i] == q;
      } else {
        assert paths'[InodeAt(paths, q)] == q;
      }
    }
    SameVolume(t', paths', v');
  }

  /** Extensionality for volumes. */
  lemma SameVolume(t: Tree, paths: Paths, v: Volume)
    requires paths.Keys == t.Keys && Injective(paths)
    requires forall i | i in t :: paths[i] in v && v[paths[i]] == t[i].content
    requires forall q | q in v :: q in paths.Values
    ensures VolumeOf(t, paths) == v
  {
    var w := VolumeOf(t, paths);
    assert forall q | q in v :: q in w;
    assert forall q | q in w :: paths[InodeAt(paths, q)] in v;
    assert w.Keys == v.Keys;
  }

  lemma RemovedWellFormed(t: Tree, root: Inode, paths: Paths, i: Inode)
    requires WellFormed(t, root, paths) && i in t
    requires forall j | j in t :: t[j].parent != i
    ensures WellFormed(t - {i}, root, paths - {i})
  {
    var t', paths' := t - {i}, paths - {i};
    forall j | j in t' ensures NodeOk(t', root, paths', j) {
      PathNonEmpty(t, root, paths, j);
    }
  }

  lemma RemovedVolume(t: Tree, paths: Paths, i: Inode)
    requires paths.Keys == t.Keys && Injective(paths) && i in t
    requires Injective(paths - {i})
    ensures VolumeOf(t - {i}, paths - {i}) == VolumeOf(t, paths) - {paths[i]}
  {
    var t', paths' := t - {i}, paths - {i};
    var v' := VolumeOf(t, paths) - {paths[i]};
    forall q | q in v' ensures q in paths'.Values {
      assert paths'[InodeAt(paths, q)] == q;
    }
    SameVolume(t', paths', v');
  }

  /** Removing a node that is nobody's parent. */
  lemma RemoveNode(t: Tree, root: Inode, paths: Paths, i: Inode)
    requires WellFormed(t, root, paths) && i in t
    requires forall j | j in t :: t[j].parent != i
    ensures WellFormed(t - {i}, root, paths - {i})
    ensures VolumeOf(t - {i}, paths - {i}) == VolumeOf(t, paths) - {paths[i]}
  {
    RemovedWellFormed(t, root, paths, i);
    RemovedVolume(t, paths, i);
  }

  lemma ContentWellFormed(t: Tree, root: Inode, paths: Paths, i: Inode, content: Content)
    requires WellFormed(t, root, paths) && i in t && KindOf(content) == KindOf(t[i].content)
    ensures WellFormed(t[i := t[i].(content := content)], root, paths)
  {
    var t' := t[i := t[i].(content := content)];
    forall j | j in t' ensures NodeOk(t', root, paths, j) {
      PathNonEmpty(t, root, paths, j);
    }
  }

  /** Giving a node new content of the same kind. */
  lemma SetContent(t: Tree, root: Inode, paths: Paths, i: Inode, content: Content)
    requires WellFormed(t, root, paths) && i in t && KindOf(content) == KindOf(t[i].content)
    ensures WellFormed(t[i := t[i].(content := content)], root, paths)
    ensures VolumeOf(t[i := t[i].(content := content)], paths) == VolumeOf(t, paths)[paths[i] := content]
  {
    ContentWellFormed(t, root, paths, i, content);
    SameVolume(t[i := t[i].(content := content)], paths, VolumeOf(t, paths)[paths[i] := content]);
  }

  /** Every node's path after the subtree of `i` has moved to `dest`. */
  ghost function MovedPaths(paths: Paths, i: Inode, dest: Path): Paths
  {
    if i in paths then map j | j in paths :: Relocate(paths[i], dest, paths[j]) else paths
  }

  lemma MovedKeys(paths: Paths, i: Inode, dest: Path)
    requires i in paths
    ensures MovedPaths(paths, i, dest).Keys == paths.Keys
  {
  }

  lemma RelocateSnoc(from: Path, dest: Path, up: Path, name: Name)
    requires up + [name] != from
    ensures Relocate(from, dest, up + [name]) == Relocate(from, dest, up) + [name]
  {
    var q := up + [name];
    if from <= q {
      assert from <= up;
      assert q[|from|..] == up[|from|..] + [name];
    } else {
      assert from <= up ==> from <= q;
    }
  }

  lemma MovedInjective(t: Tree, root: Inode, paths: Paths, i: Inode, dest: Path)
    requires WellFormed(t, root, paths) && i in t && Vacant(VolumeOf(t, paths), dest)
    ensures Injective(MovedPaths(paths, i, dest))
  {
    var paths' := MovedPaths(paths, i, dest);
    forall j, k | j in t && k in t && paths'[j] == paths'[k] ensures j == k {
      OriginOfRelocate(paths[i], dest, paths[j]);
      OriginOfRelocate(paths[i], dest, paths[k]);
    }
  }

  lemma MovedForward(v: Volume, from: Path, dest: Path, q: Path)
    requires Vacant(v, dest) && q in v
    ensures Relocate(from, dest, q) in Move(v, from, dest)
    ensures Move(v, from, dest)[Relocate(from, dest, q)] == v[q]
  {
  }

  lemma MovedBack(v: Volume, from: Path, dest: Path, k: Path)
    requires Vacant(v, dest) && k in Move(v, from, dest)
    ensures Origin(from, dest, k) in v && Relocate(from, dest, Origin(from, dest, k)) == k
  {
  }

  lemma MovedVolume(t: Tree, paths: Paths, i: Inode, node: Node, dest: Path, v: Volume, v': Volume, paths': Paths)
    requires paths.Keys == t.Keys && Injective(paths) && i in t && node.content == t[i].content
    requires v == VolumeOf(t, paths) && Vacant(v, dest) && v' == Move(v, paths[i], dest)
    requires paths'.Keys == t.Keys && Injective(paths')
    requires forall j | j in t :: paths'[j] == Relocate(paths[i], dest, paths[j])
    ensures VolumeOf(t[i := node], paths') == v'
  {
    forall j | j in t ensures paths'[j] in v' && v'[paths'[j]] == t[j].content {
      MovedForward(v, paths[i], dest, paths[j]);
    }
    forall q | q in v' ensures q in paths'.Values {
      MovedBack(v, paths[i], dest, q);
      assert paths'[InodeAt(paths, Origin(paths[i], dest, q))] == q;
    }
    SameVolume(t[i := node], paths', v');
  }

  lemma MovedNodeOk(t: Tree, root: Inode, paths: Paths, i: Inode, node: Node, j: Inode)
    requires WellFormed(t, root, paths) && i in t && DirAt(t, root, node.parent) && j in t
    requires node.content == t[i].content && !(paths[i] <= PathTo(paths, root, node.parent))
    ensures NodeOk(t[i := node], root, MovedPaths(paths, i, PathTo(paths, root, node.parent) + [node.name]), j)
  {
    var from, dest := paths[i], PathTo(paths, root, node.parent) + [node.name];
    var paths' := MovedPaths(paths, i, dest);
    PathNonEmpty(t, root, paths, i);
    PathNonEmpty(t, root, paths, j);
    if j == i {
      assert from[|from|..] == [];
      assert PathTo(paths', root, node.parent) == PathTo(paths, root, node.parent);
    } else {
      assert paths[j] != from;
      RelocateSnoc(from, dest, PathTo(paths, root, t[j].parent), t[j].name);
    }
  }

  lemma MovedWellFormed(t: Tree, root: Inode, paths: Paths, i: Inode, node: Node, paths': Paths)
    requires WellFormed(t, root, paths) && i in t && DirAt(t, root, node.parent) && node.content == t[i].content
    requires !(paths[i] <= PathTo(paths, root, node.parent))
    requires paths' == MovedPaths(paths, i, PathTo(paths, root, node.parent) + [node.name]) && Injective(paths')
    ensures WellFormed(t[i := node], root, paths')
  {
    forall j | j in t ensures NodeOk(t[i := node], root, paths', j) {
      MovedNodeOk(t, root, paths, i, node, j);
    }
  }

  /** Giving node `i` a new parent outside its own subtree and a new name moves exactly its subtree. */
  lemma MoveNode(t: Tree, root: Inode, paths: Paths, i: Inode, node: Node)
    requires WellFormed(t, root, paths) && i in t && DirAt(t, root, node.parent) && node.content == t[i].content
    requires Vacant(VolumeOf(t, paths), PathTo(paths, root, node.parent) + [node.name])
    requires !(paths[i] <= PathTo(paths, root, node.parent))
    ensures var dest := PathTo(paths, root, node.parent) + [node.name];
            var paths' := MovedPaths(paths, i, dest);
            && WellFormed(t[i := node], root, paths')
            && VolumeOf(t[i := node], paths') == Move(VolumeOf(t, paths), paths[i], dest)
  {
    var dest := PathTo(paths, root, node.parent) + [node.name];
    MovedInjective(t, root, paths, i, dest);
    var paths' := MovedPaths(paths, i, dest);
    MovedWellFormed(t, root, paths, i, node, paths');
    MovedVolume(t, paths, i, node, dest, VolumeOf(t, paths), Move(VolumeOf(t, paths), paths[i], dest), paths');
  }

  /** One step of the climb towards the root decides the prefix order one component up. */
  lemma ClimbStep(t: Tree, root: Inode, paths: Paths, candidate: Inode, ancestor: Inode)
    requires WellFormed(t, root, paths) && candidate in t && ancestor in t
    ensures candidate == ancestor ==> paths[ancestor] <= paths[candidate]
    ensures candidate != ancestor ==>
              (paths[ancestor] <= paths[candidate] <==> paths[ancestor] <= PathTo(paths, root, t[candidate].parent))
    ensures Live(t, root, t[candidate].parent)
    ensures |PathTo(paths, root, t[candidate].parent)| < |paths[candidate]|
  {
    PathNonEmpty(t, root, paths, candidate);
    var up := PathTo(paths, root, t[candidate].parent);
    if candidate != ancestor {
      assert paths[ancestor] != paths[candidate];
      if paths[ancestor] <= paths[candidate] {
        assert |paths[ancestor]| <= |up|;
        assert paths[ancestor] == paths[candidate][..|paths[ancestor]|] == up[..|paths[ancestor]|];
      }
    }
  }

  /**
    The tree invariant without the ghost paths: names are unique among siblings, parents are live
    directories, and the chain of parents from any node reaches the root.
   */
  lemma TreeInvariant(t: Tree, root: Inode, paths: Paths)
    requires WellFormed(t, root, paths)
    ensures forall i, j | i in t && j in t && t[i].parent == t[j].parent && t[i].name == t[j].name :: i == j
    ensures forall i | i in t :: DirAt(t, root, t[i].parent)
    ensures forall i | i in t :: Ancestor(t, root, i, |paths[i]|) == root
  {
    forall i, j | i in t && j in t && t[i].parent == t[j].parent && t[i].name == t[j].name ensures i == j {
      PathNonEmpty(t, root, paths, i);
      PathNonEmpty(t, root, paths, j);
    }
    forall i | i in t ensures DirAt(t, root, t[i].parent) && Ancestor(t, root, i, |paths[i]|) == root {
      PathNonEmpty(t, root, paths, i);
      ChainReachesRoot(t, root, paths, i);
    }
  }

  /** The node `n` parents above `i`; the root is its own parent. */
  function Ancestor(t: Tree, root: Inode, i: Inode, n: nat): Inode
    decreases n
  {
    if n == 0 || i !in t then i else Ancestor(t, root, t[i].parent, n - 1)
  }

  /** An inode number that is free, new or reused, is nobody's parent: a node that gets it adopts no children. */
  lemma NoAdoption(t: Tree, root: Inode, paths: Paths, i: Inode, node: Node)
    requires WellFormed(t, root, paths) && i != root && i !in t && DirAt(t, root, node.parent)
    ensures var t' := t[i := node];
            forall j | j in t' :: t'[j].parent != i
  {
    TreeInvariant(t, root, paths);
  }

  lemma {:induction false} ChainReachesRoot(t: Tree, root: Inode, paths: Paths, i: Inode)
    requires WellFormed(t, root, paths) && Live(t, root, i)
    ensures Ancestor(t, root, i, |PathTo(paths, root, i)|) == root
    decreases |PathTo(paths, root, i)|
  {
    if i != root {
      PathNonEmpty(t, root, paths, i);
      ChainReachesRoot(t, root, paths, t[i].parent);
    }
  }

  /** The inode tree `t`, with the paths `paths`, stands for the volume `v`. */
  ghost predicate Represents(t: Tree, root: Inode, paths: Paths, v: Volume)
  {
    && WellFormed(t, root, paths)
    && v == VolumeOf(t, paths)
    && ValidVolume(v)
    && |v| == |t|
  }

  /** Every well-formed tree within the limits stands for a volume. */
  lemma TreeGivesVolume(t: Tree, root: Inode, paths: Paths)
    requires WellFormed(t, root, paths) && WithinLimits(t)
    ensures Represents(t, root, paths, VolumeOf(t, paths))
  {
    InjectiveSize(paths);
    TreeShape(t, root, paths);
    assert |VolumeOf(t, paths)| == |VolumeOf(t, paths).Keys|;
    assert |t| == |t.Keys| == |paths.Keys| == |paths|;
  }

  lemma RepresentsSize(t: Tree, root: Inode, paths: Paths, v: Volume)
    requires Represents(t, root, paths, v)
    ensures |v| == |t| && ValidVolume(v) && paths.Keys == t.Keys
  {
  }

  /** What a resolved inode tells about the path. */
  lemma Resolved(t: Tree, root: Inode, paths: Paths, v: Volume, q: Path, r: Option<Inode>)
    requires Represents(t, root, paths, v) && IsResolution(t, root, paths, q, r)
    ensures r.Some? <==> Exists(v, q)
    ensures r.Some? ==> (r.value == root <==> q == []) && (DirAt(t, root, r.value) <==> IsDir(v, q))
    ensures r.Some? && r.value != root ==>
              r.value in t && r.value in paths && paths[r.value] == q && q in v && v[q] == t[r.value].content
  {
    ResolvedKind(t, root, paths, q, r);
  }

  lemma TargetFree(t: Tree, root: Inode, paths: Paths, v: Volume, parent: Inode, name: Name, clash: Option<Inode>)
    requires Represents(t, root, paths, v) && DirAt(t, root, parent) && IsChildLookup(t, parent, name, clash)
    ensures var target := Ok(Target(Some(PathTo(paths, root, parent)), name));
            TargetError(v, target) == if clash.Some? then Some(AlreadyExists) else None
  {
    var q := PathTo(paths, root, parent);
    ChildExtends(t, root, paths, parent, name, clash);
    ResolvedKind(t, root, paths, q, Some(parent));
    ResolvedKind(t, root, paths, q + [name], clash);
  }

  /** What the volume holds for an inode, if it is live. */
  function ContentOf(paths: Paths, v: Volume, i: Inode): Option<Content>
  {
    if i in paths && paths[i] in v then Some(v[paths[i]]) else None
  }

  /** The volume after `source` is written into the file `i`. */
  function Written(paths: Paths, v: Volume, i: Inode, offset: nat, source: Bytes): Volume
  {
    match ContentOf(paths, v, i)
    case Some(Data(bytes)) => v[paths[i] := Data(Overlay(bytes, offset, source))]
    case _ => v
  }

  lemma ContentAt(t: Tree, root: Inode, paths: Paths, v: Volume, i: Inode)
    requires Represents(t, root, paths, v) && i in t
    ensures i in paths && paths[i] in v && v[paths[i]] == t[i].content
  {
  }

  /** A node added where the target says is what create and mkdir promise. */
  lemma CreateNode(t: Tree, root: Inode, paths: Paths, v: Volume, i: Inode, parent: Inode, name: Name, kind: FileType)
    requires Represents(t, root, paths, v) && DirAt(t, root, parent) && i != root && i !in t && |v| < MAX_NODES
    requires TargetError(v, Ok(Target(Some(PathTo(paths, root, parent)), name))).None?
    ensures var p := PathTo(paths, root, parent) + [name];
            var v' := v[p := Empty(kind)];
            && FsSpec.Create(v, Ok(Target(Some(PathTo(paths, root, parent)), name)), kind) == (v', None)
            && Represents(t[i := Node(parent, name, Empty(kind))], root, paths[i := p], v')
  {
    AddNode(t, root, paths, i, Node(parent, name, Empty(kind)));
    var r := FsSpec.Create(v, Ok(Target(Some(PathTo(paths, root, parent)), name)), kind);
    assert ValidVolume(r.0);
  }

  /** Taking out a node of the expected kind without children is what unlink and rmdir promise. */
  lemma DeleteNode(t: Tree, root: Inode, paths: Paths, v: Volume, i: Inode, kind: FileType)
    requires Represents(t, root, paths, v) && i in t && KindOf(t[i].content) == kind
    requires kind == Directory ==> forall j | j in t :: t[j].parent != i
    ensures var v' := v - {paths[i]};
            && FsSpec.Remove(v, Some(paths[i]), kind) == (v', None)
            && Represents(t - {i}, root, paths - {i}, v')
  {
    if kind == File { FilesHaveNoChildren(t, root, paths, i); }
    ContentAt(t, root, paths, v, i);
    PathNonEmpty(t, root, paths, i);
    ChildrenMatch(t, root, paths, i);
    RemoveNode(t, root, paths, i);
    assert ValidVolume(FsSpec.Remove(v, Some(paths[i]), kind).0);
    assert (t - {i}).Keys == t.Keys - {i};
    assert |t - {i}| == |(t - {i}).Keys|;
    assert (v - {paths[i]}).Keys == v.Keys - {paths[i]};
    assert |v - {paths[i]}| == |(v - {paths[i]}).Keys|;
  }

  /** The refusals of unlink and rmdir, read off the node. */
  lemma DeleteRefused(t: Tree, root: Inode, paths: Paths, v: Volume, i: Inode, kind: FileType)
    requires Represents(t, root, paths, v) && i in t
    ensures KindOf(t[i].content) != kind ==>
              FsSpec.Remove(v, Some(paths[i]), kind) == (v, Some(if kind == File then IsDirectory else NotDirectory))
    ensures kind == Directory && KindOf(t[i].content) == kind && (exists j :: j in t && t[j].parent == i) ==>
              FsSpec.Remove(v, Some(paths[i]), kind) == (v, Some(DirectoryNotEmpty))
  {
    ContentAt(t, root, paths, v, i);
    PathNonEmpty(t, root, paths, i);
    ChildrenMatch(t, root, paths, i);
  }

  /** Re-parenting and renaming a node is what rename promises, unless the new parent lies below the node. */
  lemma RelinkNode(t: Tree, root: Inode, paths: Paths, v: Volume, i: Inode, parent: Inode, name: Name)
    requires Represents(t, root, paths, v) && i in t && DirAt(t, root, parent)
    requires TargetError(v, Ok(Target(Some(PathTo(paths, root, parent)), name))).None?
    ensures var target := Ok(Target(Some(PathTo(paths, root, parent)), name));
            var r := FsSpec.Rename(v, Some(paths[i]), target);
            if paths[i] <= PathTo(paths, root, parent) then r == (v, Some(InvalidPath))
            else
              && r.1.None? && |r.0| == |t|
              && Represents(t[i := Node(parent, name, t[i].content)], root,
                            MovedPaths(paths, i, PathTo(paths, root, parent) + [name]), r.0)
  {
    ContentAt(t, root, paths, v, i);
    PathNonEmpty(t, root, paths, i);
    var up := PathTo(paths, root, parent);
    FreshSubtree(v, up + [name]);
    RenameUnfolds(v, paths[i], up, name);
    if !(paths[i] <= up) {
      MoveNode(t, root, paths, i, Node(parent, name, t[i].content));
      MoveSize(v, paths[i], up + [name]);
      hide WellFormed, ValidVolume, Move, FsSpec.Rename, MovedPaths, VolumeOf, TargetError;
      assert |t[i := Node(parent, name, t[i].content)]| == |t|;
    }
  }

  lemma RewriteNode(t: Tree, root: Inode, paths: Paths, v: Volume, i: Inode, bytes: Bytes)
    requires Represents(t, root, paths, v) && i in t && t[i].content.Data? && |bytes| <= MAX_FILE_SIZE
    ensures Represents(t[i := t[i].(content := Data(bytes))], root, paths, v[paths[i] := Data(bytes)])
  {
    SetContent(t, root, paths, i, Data(bytes));
    ContentAt(t, root, paths, v, i);
    var t' := t[i := t[i].(content := Data(bytes))];
    assert t'.Keys == t.Keys;
    assert |t'| == |t'.Keys|;
    var v' := v[paths[i] := Data(bytes)];
    assert v'.Keys == v.Keys;
    assert |v'| == |v'.Keys|;
    TreeShape(t', root, paths);
  }

  lemma EmptyRepresents(root: Inode)
    ensures Represents(map[], root, map[], map[])
  {
  }
}
