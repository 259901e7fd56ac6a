/** What both file systems promise, without inodes or blocks: a volume maps component lists to contents. */
module FsSpec {
  import opened Base
  import opened PathText

  const MAX_NODES := 32
  const MAX_NAME_LEN := 32
  const MAX_FILE_SIZE := 1024

  datatype FileType = File | Directory

  datatype FsError =
    | NotFound | NotDirectory | IsDirectory | InvalidPath | PathTooLong | NameTooLong | AlreadyExists
    | ReadOnly | NoSpace | FileTooLarge | DirectoryNotEmpty | Corrupt

  datatype Content = Dir | Data(bytes: Bytes)

  type Volume = map<Path, Content>

  /** A path split at its last slash: the parent's components (None if they do not parse) and the new name. */
  datatype Target = Target(parent: Option<Path>, name: Name)

  predicate Exists(v: Volume, q: Path) { q == [] || q in v }

  predicate IsDir(v: Volume, q: Path) { q == [] || (q in v && v[q].Dir?) }

  /** The path one component up; the root is its own parent. */
  function Parent(q: Path): Path { if q == [] then [] else q[..|q| - 1] }

  predicate HasChild(v: Volume, q: Path) { exists c | c in v :: c != [] && Parent(c) == q }

  function KindOf(c: Content): FileType { if c.Dir? then Directory else File }

  function Empty(kind: FileType): Content { if kind == File then Data([]) else Dir }

  /** The root is implicit, every parent is a directory, and the limits of both backends hold. */
  ghost predicate ValidVolume(v: Volume)
  {
    && |v| <= MAX_NODES
    && TreeShaped(v)
    && (forall q | q in v && v[q].Data? :: |v[q].bytes| <= MAX_FILE_SIZE)
  }

  ghost predicate TreeShaped(v: Volume)
  {
    && [] !in v
    && (forall q {:trigger Parent(q)} | q in v :: IsDir(v, Parent(q)))
  }

  /** Where the path `q` ends up when the subtree at `from` becomes the subtree at `dest`. */
  function Relocate(from: Path, dest: Path, q: Path): Path
  {
    if from <= q then dest + q[|from|..] else q
  }

  lemma {:induction false} PrefixExists(v: Volume, q: Path, p: Path)
    requires TreeShaped(v) && q in v && p <= q && p != []
    ensures p in v
    decreases |q|
  {
    if p != q {
      var up := Parent(q);
      assert p <= up;
      PrefixExists(v, up, p);
    }
  }

  /** The inverse of Relocate. */
  function Origin(from: Path, dest: Path, k: Path): Path
  {
    if dest <= k then from + k[|dest|..] else k
  }

  /** Nothing lives at `dest` or below it. */
  ghost predicate Vacant(v: Volume, dest: Path) { forall q | q in v :: !(dest <= q) }

  lemma OriginOfRelocate(from: Path, dest: Path, q: Path)
    requires !(dest <= q)
    ensures Origin(from, dest, Relocate(from, dest, q)) == q
  {
    if from <= q {
      assert (dest + q[|from|..])[|dest|..] == q[|from|..];
      assert from + q[|from|..] == q;
    }
  }

  /** `v` with the subtree at `from` moved to `dest`. */
  ghost function Move(v: Volume, from: Path, dest: Path): (r: Volume)
    requires Vacant(v, dest)
    ensures forall k {:trigger k in r} ::
              k in r <==> Origin(from, dest, k) in v && Relocate(from, dest, Origin(from, dest, k)) == k
    ensures forall k {:trigger r[k]} | k in r :: r[k] == v[Origin(from, dest, k)]
    ensures forall q {:trigger Relocate(from, dest, q)} | q in v ::
              Relocate(from, dest, q) in r && r[Relocate(from, dest, q)] == v[q]
  {
    assert forall q | q in v :: Origin(from, dest, Relocate(from, dest, q)) == q by {
      forall q | q in v ensures Origin(from, dest, Relocate(from, dest, q)) == q { OriginOfRelocate(from, dest, q); }
    }
    var keys := set q | q in v :: Relocate(from, dest, q);
    map k | k in keys :: v[Origin(from, dest, k)]
  }

  /** Flat write: zero-extend the file to the end of the write, then overwrite. */
  function Overlay(bytes: Bytes, offset: nat, src: Bytes): (r: Bytes)
    ensures |r| == Max(|bytes|, offset + |src|)
    ensures forall i | 0 <= i < |r| ::
              r[i] == if offset <= i < offset + |src| then src[i - offset]
                      else if i < |bytes| then bytes[i] else 0
  {
    Patch(bytes + Zeros(Max(0, offset + |src| - |bytes|)), offset, src)
  }

  /** Flat read: what lies between `offset` and the end of file, at most `n` bytes. */
  function ReadAt(bytes: Bytes, offset: nat, n: nat): (r: Bytes)
    ensures |r| == Min(n, Max(0, |bytes| - offset))
    ensures forall i | 0 <= i < |r| :: r[i] == bytes[offset + i]
  {
    if offset >= |bytes| then [] else bytes[offset..offset + Min(n, |bytes| - offset)]
  }

  function ErrorOf<T>(r: Result<T, FsError>): Option<FsError>
  {
    match r
    case Ok(_) => None
    case Err(e) => Some(e)
  }

  /** Why nothing can be put at the target, if so: checked in this order by create, mkdir and rename. */
  function TargetError(v: Volume, target: Result<Target, FsError>): Option<FsError>
  {
    match target
    case Err(e) => Some(e)
    case Ok(Target(None, _)) => Some(NotFound)
    case Ok(Target(Some(parent), name)) =>
      if !Exists(v, parent) then Some(NotFound)
      else if !IsDir(v, parent) then Some(NotDirectory)
      else if parent + [name] in v then Some(AlreadyExists)
      else None
  }

  /** Why the RAM store refuses to write `end - offset` bytes to a node, if it does. */
  function StoreWriteError(c: Option<Content>, end: nat): Option<FsError>
  {
    if c.None? then Some(NotFound)
    else if c.value.Dir? then Some(IsDirectory)
    else if end > MAX_FILE_SIZE then Some(FileTooLarge)
    else None
  }

  /** The same for VANTFS, which checks the size before it looks for the node. */
  function VolumeWriteError(c: Option<Content>, end: nat): Option<FsError>
  {
    if end > MAX_FILE_SIZE then Some(FileTooLarge)
    else if c.None? then Some(NotFound)
    else if c.value.Dir? then Some(IsDirectory)
    else None
  }

  /** create and mkdir: the new volume and the error, if any. */
  function Create(v: Volume, target: Result<Target, FsError>, kind: FileType): (r: (Volume, Option<FsError>))
    requires ValidVolume(v)
    ensures ValidVolume(r.0)
    ensures r.1.Some? ==> r.0 == v
  {
    match TargetError(v, target)
    case Some(e) => (v, Some(e))
    case None =>
      if |v| == MAX_NODES then (v, Some(NoSpace))
      else
        var p := target.value.parent.value + [target.value.name];
        assert Parent(p) == target.value.parent.value;
        (v[p := Empty(kind)], None)
  }

  lemma CreateRefused(v: Volume, target: Result<Target, FsError>, kind: FileType)
    requires ValidVolume(v)
    ensures TargetError(v, target).Some? ==> Create(v, target, kind) == (v, TargetError(v, target))
    ensures TargetError(v, target).None? && |v| == MAX_NODES ==> Create(v, target, kind) == (v, Some(NoSpace))
    ensures TargetError(v, target).None? && |v| < MAX_NODES ==> Create(v, target, kind).1.None?
  {
  }

  /** unlink (kind File) and rmdir (kind Directory). */
  function Remove(v: Volume, path: Option<Path>, kind: FileType): (r: (Volume, Option<FsError>))
    requires ValidVolume(v)
    ensures ValidVolume(r.0)
    ensures r.1.Some? ==> r.0 == v
  {
    if path.None? || !Exists(v, path.value) then (v, Some(NotFound))
    else if path.value == [] then (v, Some(ReadOnly))
    else if KindOf(v[path.value]) != kind then (v, Some(if kind == File then IsDirectory else NotDirectory))
    else if kind == Directory && HasChild(v, path.value) then (v, Some(DirectoryNotEmpty))
    else
      var v' := v - {path.value};
      assert v'.Keys == v.Keys - {path.value};
      (v', None)
  }

  ghost function Rename(v: Volume, from: Option<Path>, target: Result<Target, FsError>): (r: (Volume, Option<FsError>))
    requires ValidVolume(v)
    ensures ValidVolume(r.0)
    ensures r.1.Some? ==> r.0 == v
  {
    if from.None? || !Exists(v, from.value) then (v, Some(NotFound))
    else if from.value == [] then (v, Some(ReadOnly))
    else match TargetError(v, target)
      case Some(e) => (v, Some(e))
      case None =>
        var parent, name := target.value.parent.value, target.value.name;
        if from.value <= parent then (v, Some(InvalidPath))
        else
          FreshSubtree(v, parent + [name]);
          MoveValid(v, from.value, parent, name);
          (Move(v, from.value, parent + [name]), None)
  }

  lemma RemoveRefused(v: Volume, path: Option<Path>, kind: FileType)
    requires ValidVolume(v)
    ensures path.None? || !Exists(v, path.value) ==> Remove(v, path, kind) == (v, Some(NotFound))
    ensures path == Some([]) ==> Remove(v, path, kind) == (v, Some(ReadOnly))
  {
  }

  lemma RenameRefused(v: Volume, from: Option<Path>, target: Result<Target, FsError>)
    requires ValidVolume(v)
    ensures from.None? || !Exists(v, from.value) ==> Rename(v, from, target) == (v, Some(NotFound))
    ensures from == Some([]) ==> Rename(v, from, target) == (v, Some(ReadOnly))
    ensures from.Some? && from.value != [] && Exists(v, from.value) && TargetError(v, target).Some? ==>
              Rename(v, from, target) == (v, TargetError(v, target))
  {
  }

  lemma RenameUnfolds(v: Volume, from: Path, parent: Path, name: Name)
    requires ValidVolume(v) && from in v && TargetError(v, Ok(Target(Some(parent), name))).None?
    ensures Vacant(v, parent + [name])
    ensures Rename(v, Some(from), Ok(Target(Some(parent), name))) ==
            if from <= parent then (v, Some(InvalidPath)) else (Move(v, from, parent + [name]), None)
  {
    FreshSubtree(v, parent + [name]);
  }

  lemma FreshSubtree(v: Volume, p: Path)
    requires ValidVolume(v) && p !in v && p != []
    ensures Vacant(v, p)
  {
    forall q | q in v ensures !(p <= q) {
      if p <= q { PrefixExists(v, q, p); }
    }
  }

  lemma MoveSize(v: Volume, from: Path, dest: Path)
    requires Vacant(v, dest)
    ensures |Move(v, from, dest)| == |v|
    decreases |v|
  {
    var m := Move(v, from, dest);
    if v.Keys == {} {
      assert |v.Keys| == 0;
      assert m.Keys == {};
    } else {
      var q :| q in v;
      var less := v - {q};
      assert less.Keys == v.Keys - {q};
      MoveSize(less, from, dest);
      MoveLess(v, from, dest, q);
      hide Move, Relocate, Vacant;
      assert |m.Keys| == |Move(less, from, dest).Keys| + 1;
      assert |v.Keys| == |less.Keys| + 1;
    }
  }

  /** One path fewer to move is one path fewer in the result. */
  lemma MoveLess(v: Volume, from: Path, dest: Path, q: Path)
    requires Vacant(v, dest) && q in v
    ensures Move(v, from, dest).Keys == Move(v - {q}, from, dest).Keys + {Relocate(from, dest, q)}
    ensures Relocate(from, dest, q) !in Move(v - {q}, from, dest)
  {
    OriginOfRelocate(from, dest, q);
  }

  lemma RelocateParent(from: Path, dest: Path, q: Path)
    requires q != [] && q != from && dest != []
    ensures Relocate(from, dest, q) != []
    ensures var k := Relocate(from, dest, q);
            Parent(k) == Relocate(from, dest, Parent(q))
  {
    var up := Parent(q);
    if from <= q {
      assert from <= up;
      assert q[|from|..] == up[|from|..] + [q[|q| - 1]];
    } else {
      assert from <= up ==> from <= q;
    }
  }

  lemma MoveValidAt(v: Volume, from: Path, parent: Path, name: Name, q: Path)
    requires ValidVolume(v) && from in v && IsDir(v, parent) && !(from <= parent)
    requires Vacant(v, parent + [name]) && q in v
    ensures var k := Relocate(from, parent + [name], q);
            k != [] && IsDir(Move(v, from, parent + [name]), Parent(k))
  {
    var dest := parent + [name];
    var m := Move(v, from, dest);
    var up := if q == from then parent else Parent(q);
    var k := Relocate(from, dest, q);
    assert IsDir(v, up);
    assert k != [] && Parent(k) == Relocate(from, dest, up) by {
      if q == from {
        assert k == dest;
      } else {
        RelocateParent(from, dest, q);
      }
    }
    assert IsDir(m, Relocate(from, dest, up));
  }

  lemma MoveValid(v: Volume, from: Path, parent: Path, name: Name)
    requires ValidVolume(v) && from in v && IsDir(v, parent) && !(from <= parent)
    requires Vacant(v, parent + [name])
    ensures ValidVolume(Move(v, from, parent + [name]))
  {
    var dest := parent + [name];
    var m := Move(v, from, dest);
    MoveSize(v, from, dest);
    forall k | k in m ensures k != [] && IsDir(m, Parent(k)) {
      MoveValidAt(v, from, parent, name, Origin(from, dest, k));
    }
  }

  lemma NothingLeftBehind(v: Volume, from: Path, parent: Path, name: Name, suffix: Path)
    requires ValidVolume(v) && from in v && !(from <= parent)
    requires Vacant(v, parent + [name])
    ensures from + suffix !in Move(v, from, parent + [name])
  {
    var dest := parent + [name];
    var k := from + suffix;
    var q := Origin(from, dest, k);
    if dest <= k {
      PrefixesCompare(from, dest, k);
    } else {
      assert q == k && from <= q;
      assert dest <= Relocate(from, dest, q);
    }
  }

  /**
    What rename does, told path by path: nothing is left under the old path, each path under the new one
    holds what the old one held, and every other path is as before.
   */
  lemma RenameMovesOneSubtree(v: Volume, from: Path, parent: Path, name: Name, suffix: Path, other: Path)
    requires ValidVolume(v)
    requires Rename(v, Some(from), Ok(Target(Some(parent), name))).1.None?
    ensures var dest := parent + [name];
            var v' := Rename(v, Some(from), Ok(Target(Some(parent), name))).0;
            && from + suffix !in v'
            && (dest + suffix in v' <==> from + suffix in v)
            && (from + suffix in v ==> v'[dest + suffix] == v[from + suffix])
            && (!(from <= other) && !(dest <= other) ==> (other in v' <==> other in v))
            && (!(from <= other) && !(dest <= other) && other in v ==> v'[other] == v[other])
  {
    var dest := parent + [name];
    FreshSubtree(v, dest);
    NothingLeftBehind(v, from, parent, name, suffix);
    RelocateSuffix(from, dest, suffix);
    var m := Move(v, from, dest);
    assert dest + suffix in m <==> from + suffix in v;
    if !(from <= other) && !(dest <= other) {
      assert Origin(from, dest, other) == other;
    }
  }

  lemma RelocateSuffix(from: Path, dest: Path, suffix: Path)
    ensures Relocate(from, dest, from + suffix) == dest + suffix
    ensures Origin(from, dest, dest + suffix) == from + suffix
  {
    assert (dest + suffix)[|dest|..] == suffix;
    assert (from + suffix)[|from|..] == suffix;
  }

  lemma PrefixesCompare(a: Path, b: Path, whole: Path)
    requires a <= whole && b <= whole
    ensures a <= b || b <= a
  {
    if |a| <= |b| {
      assert b[..|a|] == whole[..|a|];
    } else {
      assert a[..|b|] == whole[..|b|];
    }
  }

  // ----- When an operation succeeds -----

  /** create and mkdir succeed exactly below a directory, at a free name, while there is room for a node. */
  lemma CreateIff(v: Volume, parent: Path, name: Name, kind: FileType)
    requires ValidVolume(v)
    ensures var (v', error) := Create(v, Ok(Target(Some(parent), name)), kind);
            && (error.None? <==> IsDir(v, parent) && parent + [name] !in v && |v| < MAX_NODES)
            && (error == Some(NotFound) <==> parent != [] && parent !in v)
            && (error == Some(NotDirectory) <==> parent in v && parent != [] && v[parent].Data?)
            && (error == Some(AlreadyExists) <==> IsDir(v, parent) && parent + [name] in v)
            && (error.None? ==> v'.Keys == v.Keys + {parent + [name]} && KindOf(v'[parent + [name]]) == kind)
            && (error.None? ==> forall q | q in v :: v'[q] == v[q])
            && (error.None? && kind == File ==> v'[parent + [name]] == Data([]))
  {
  }

  /** unlink and rmdir succeed exactly on a node of their kind that is not the root and above no other. */
  lemma RemoveIff(v: Volume, p: Path, kind: FileType)
    requires ValidVolume(v)
    ensures var (v', error) := Remove(v, Some(p), kind);
            && (error.None? <==> p in v && KindOf(v[p]) == kind && forall q | q in v && p <= q :: q == p)
            && (error.None? ==> v'.Keys == v.Keys - {p} && forall q | q in v' :: v'[q] == v[q])
            && (error == Some(NotFound) <==> p != [] && p !in v)
            && (error == Some(IsDirectory) <==> p in v && kind == File && v[p].Dir?)
            && (error == Some(NotDirectory) <==> p in v && kind == Directory && v[p].Data?)
  {
    hide Remove;
    RemoveAnswer(v, p, kind);
    if p in v {
      ChildBelow(v, p);
      hide Parent, HasChild;
      if v[p].Data? { NoneBelowFile(v, p); }
    }
  }

  lemma RemoveAnswer(v: Volume, p: Path, kind: FileType)
    requires ValidVolume(v)
    ensures [] !in v
    ensures var (v', error) := Remove(v, Some(p), kind);
            if p == [] then error == Some(ReadOnly)
            else if p !in v then error == Some(NotFound)
            else if KindOf(v[p]) != kind then error == Some(if kind == File then IsDirectory else NotDirectory)
            else if kind == Directory && HasChild(v, p) then error == Some(DirectoryNotEmpty)
            else error.None? && v' == v - {p}
  {
  }

  /** A node has a child exactly when something lies below it. */
  lemma ChildBelow(v: Volume, p: Path)
    requires ValidVolume(v) && p in v
    ensures HasChild(v, p) <==> exists q :: q in v && p <= q && q != p
  {
    if HasChild(v, p) {
      var c :| c in v && c != [] && Parent(c) == p;
      assert p <= c && c != p;
    }
    if q :| q in v && p <= q && q != p {
      var c := q[..|p| + 1];
      PrefixExists(v, q, c);
      assert c != [] && Parent(c) == p;
    }
  }

  lemma NoneBelowFile(v: Volume, p: Path)
    requires ValidVolume(v) && p in v && v[p].Data?
    ensures !HasChild(v, p)
  {
  }

  /** rename succeeds exactly from a node to a free name below a directory that is not below the node. */
  lemma RenameIff(v: Volume, from: Path, parent: Path, name: Name)
    requires ValidVolume(v)
    ensures Rename(v, Some(from), Ok(Target(Some(parent), name))).1.None? <==>
              from in v && IsDir(v, parent) && parent + [name] !in v && !(from <= parent)
    ensures Rename(v, Some(from), Ok(Target(Some(parent), name))).1 == Some(InvalidPath) <==>
              from in v && IsDir(v, parent) && parent + [name] !in v && from <= parent
  {
    assert [] !in v;
    hide Move, Vacant;
  }

  // ----- What one operation undoes of another -----

  /** What create or mkdir made, unlink or rmdir takes away again, and the volume is as before. */
  lemma CreateThenRemove(v: Volume, parent: Path, name: Name, kind: FileType)
    requires ValidVolume(v) && Create(v, Ok(Target(Some(parent), name)), kind).1.None?
    ensures var v' := Create(v, Ok(Target(Some(parent), name)), kind).0;
            Remove(v', Some(parent + [name]), kind) == (v, None)
  {
    hide *;
    CreateIs(v, parent, name, kind);
    var p := parent + [name];
    NoChildYet(v, p, Empty(kind));
    RemoveIs(v[p := Empty(kind)], p, kind);
    PutAndDrop(v, p, Empty(kind));
  }

  lemma CreateIs(v: Volume, parent: Path, name: Name, kind: FileType)
    requires ValidVolume(v) && Create(v, Ok(Target(Some(parent), name)), kind).1.None?
    ensures var p := parent + [name];
            p != [] && p !in v && Create(v, Ok(Target(Some(parent), name)), kind).0 == v[p := Empty(kind)]
  {
  }

  lemma NoChildYet(v: Volume, p: Path, c: Content)
    requires ValidVolume(v) && p !in v && p != []
    ensures !HasChild(v[p := c], p)
  {
    FreshSubtree(v, p);
    hide ValidVolume;
    forall q | q in v[p := c] && q != [] ensures Parent(q) != p {
      assert q == Parent(q) + [q[|q| - 1]];
      assert Parent(q) == p ==> p <= q;
    }
  }

  lemma RemoveIs(v: Volume, p: Path, kind: FileType)
    requires ValidVolume(v) && p in v && p != [] && v[p] == Empty(kind) && !HasChild(v, p)
    ensures Remove(v, Some(p), kind) == (v - {p}, None)
  {
  }

  lemma PutAndDrop(v: Volume, p: Path, c: Content)
    requires p !in v
    ensures v[p := c] - {p} == v
  {
  }

  lemma MoveBack(v: Volume, from: Path, dest: Path)
    requires Vacant(v, dest) && Vacant(Move(v, from, dest), from)
    ensures Move(Move(v, from, dest), dest, from) == v
  {
    var v' := Move(v, from, dest);
    var back := Move(v', dest, from);
    forall q | q in v ensures q in back && back[q] == v[q] {
      OriginOfRelocate(from, dest, q);
      assert Relocate(from, dest, q) in v';
    }
    forall k | k in back ensures k in v {
      var o := Origin(dest, from, k);
      assert o in v' && Relocate(dest, from, o) == k;
      var q := Origin(from, dest, o);
      assert q in v && Relocate(from, dest, q) == o;
      OriginOfRelocate(from, dest, q);
    }
  }

  /** A successful rename can be undone by the opposite rename, which succeeds and gives back the same volume. */
  lemma RenameBack(v: Volume, from: Path, parent: Path, name: Name)
    requires ValidVolume(v) && Rename(v, Some(from), Ok(Target(Some(parent), name))).1.None?
    ensures var v' := Rename(v, Some(from), Ok(Target(Some(parent), name))).0;
            from != [] && Rename(v', Some(parent + [name]), Ok(Target(Some(Parent(from)), from[|from| - 1]))) ==
                (v, None)
  {
    hide Rename, TargetError, Move, ValidVolume, Vacant, Parent;
    var dest := parent + [name];
    RenameSucceeds(v, from, parent, name);
    MoveValid(v, from, parent, name);
    OldPlaceFree(v, from, parent, name);
    RenameUnfolds(Move(v, from, dest), dest, Parent(from), from[|from| - 1]);
    MoveBack(v, from, dest);
  }

  /** When a rename succeeds, and with what. */
  lemma RenameSucceeds(v: Volume, from: Path, parent: Path, name: Name)
    requires ValidVolume(v) && Rename(v, Some(from), Ok(Target(Some(parent), name))).1.None?
    ensures from in v && IsDir(v, parent) && !(from <= parent) && Vacant(v, parent + [name])
    ensures Rename(v, Some(from), Ok(Target(Some(parent), name))).0 == Move(v, from, parent + [name])
  {
    RenameUnfolds(v, from, parent, name);
  }

  /** After a move the old place is a good target for the way back. */
  lemma OldPlaceFree(v: Volume, from: Path, parent: Path, name: Name)
    requires ValidVolume(v) && from in v && !(from <= parent) && Vacant(v, parent + [name])
    ensures from != [] && Parent(from) + [from[|from| - 1]] == from
    ensures parent + [name] in Move(v, from, parent + [name]) && !(parent + [name] <= Parent(from))
    ensures TargetError(Move(v, from, parent + [name]), Ok(Target(Some(Parent(from)), from[|from| - 1]))).None?
  {
    hide *;
    var dest := parent + [name];
    UpIsDir(v, from);
    var up, last := Parent(from), from[|from| - 1];
    OldPathGone(v, from, parent, name);
    NotAbove(v, dest, up);
    StaysPut(v, from, dest, up);
    Arrives(v, from, dest);
    GoodTarget(Move(v, from, dest), up, last);
  }

  lemma UpIsDir(v: Volume, p: Path)
    requires ValidVolume(v) && p in v
    ensures p != [] && Parent(p) + [p[|p| - 1]] == p && IsDir(v, Parent(p)) && !(p <= Parent(p))
  {
  }

  lemma OldPathGone(v: Volume, from: Path, parent: Path, name: Name)
    requires ValidVolume(v) && from in v && !(from <= parent) && Vacant(v, parent + [name])
    ensures from !in Move(v, from, parent + [name])
  {
    NothingLeftBehind(v, from, parent, name, []);
    assert from + [] == from;
  }

  lemma NotAbove(v: Volume, dest: Path, q: Path)
    requires Vacant(v, dest) && IsDir(v, q) && dest != []
    ensures !(dest <= q)
  {
  }

  lemma Arrives(v: Volume, from: Path, dest: Path)
    requires from in v && Vacant(v, dest)
    ensures dest in Move(v, from, dest)
  {
    assert Relocate(from, dest, from) == dest;
  }

  lemma GoodTarget(v: Volume, parent: Path, name: Name)
    requires IsDir(v, parent) && parent + [name] !in v
    ensures TargetError(v, Ok(Target(Some(parent), name))).None?
  {
  }

  /** A directory outside the moved subtree is still a directory. */
  lemma StaysPut(v: Volume, from: Path, dest: Path, q: Path)
    requires Vacant(v, dest) && IsDir(v, q) && !(from <= q)
    ensures IsDir(Move(v, from, dest), q)
  {
    assert Relocate(from, dest, q) == q;
  }

  /** Reading where one has just written gives what was written; elsewhere a write changes nothing but the length. */
  lemma ReadAfterWrite(bytes: Bytes, offset: nat, src: Bytes)
    ensures ReadAt(Overlay(bytes, offset, src), offset, |src|) == src
    ensures forall at: nat, n: nat | at + n <= offset && at + n <= |bytes| ::
              ReadAt(Overlay(bytes, offset, src), at, n) == ReadAt(bytes, at, n)
  {
    forall at: nat, n: nat | at + n <= offset && at + n <= |bytes|
      ensures ReadAt(Overlay(bytes, offset, src), at, n) == ReadAt(bytes, at, n)
    {
    }
  }
}
