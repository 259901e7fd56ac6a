/** The mount table: which backend a normalized path goes to, and as which path. */
module Mounts {
  import opened Base
  import opened PathText
  import opened FsSpec
  import opened Normalize

  datatype Mount = Mount(id: nat, path: Bytes, available: bool)

  predicate PathMatchesMount(path: Bytes, mount: Bytes)
  {
    mount == [SLASH] || path == mount || (mount <= path && [SLASH] <= path[|mount|..])
  }

  function StripMountPath(path: Bytes, mount: Bytes): Bytes
  {
    if mount == [SLASH] then path
    else
      var suffix := if mount <= path then path[|mount|..] else path;
      if suffix == [] then [SLASH] else suffix
  }

  predicate Serves(m: Mount, path: Bytes) { m.available && PathMatchesMount(path, m.path) }

  /** The longest mount that is available and matches; of equally long ones the last. */
  method Resolve(mounts: seq<Mount>, path: Bytes) returns (r: Result<(Mount, Bytes), FsError>)
    ensures r.Err? <==> forall i | 0 <= i < |mounts| :: !Serves(mounts[i], path)
    ensures r.Err? ==> r.error == NotFound
    ensures r.Ok? ==> r.value.0 in mounts && Serves(r.value.0, path)
    ensures r.Ok? ==> r.value.1 == StripMountPath(path, r.value.0.path)
    ensures r.Ok? ==> forall i | 0 <= i < |mounts| && Serves(mounts[i], path) :: |mounts[i].path| <= |r.value.0.path|
  {
    var best: Option<Mount> := None;
    for k := 0 to |mounts|
      invariant best.None? ==> forall i | 0 <= i < k :: !Serves(mounts[i], path)
      invariant best.Some? ==> best.value in mounts && Serves(best.value, path)
      invariant best.Some? ==> forall i | 0 <= i < k && Serves(mounts[i], path) :: |mounts[i].path| <= |best.value.path|
    {
      if Serves(mounts[k], path) && (best.None? || |best.value.path| <= |mounts[k].path|) {
        best := Some(mounts[k]);
      }
    }
    if best.None? { return Err(NotFound); }
    return Ok((best.value, StripMountPath(path, best.value.path)));
  }

  lemma {:induction false} SlashedConcat(a: Path, b: Path)
    ensures Slashed(a + b) == Slashed(a) + Slashed(b)
  {
    if b == [] {
      assert a + b == a;
    } else {
      var front, last := b[..|b| - 1], b[|b| - 1];
      SlashedSnoc(a + front, last);
      SlashedSnoc(front, last);
      hide Slashed;
      SlashedConcat(a, front);
      assert a + b == a + front + [last] && b == front + [last];
    }
  }

  lemma SlashedSnoc(a: Path, last: Name)
    ensures Slashed(a + [last]) == Slashed(a) + ([SLASH] + last)
  {
    assert (a + [last])[..|a|] == a;
  }

  lemma MatchGivesPrefix(s: Path, m: Path, rest: Bytes)
    requires PlainPath(s) && PlainPath(m) && Slashed(s) == Slashed(m) + [SLASH] + rest
    ensures m <= s
  {
    hide Slashed, Split, PlainPath;
    SplitSlashed(s);
    SplitSlashed(m);
    SplitConcat(Slashed(m), rest);
    BehindFirst(s, m, Split(rest));
  }

  lemma BehindFirst(s: Path, m: Path, rest: seq<Bytes>)
    requires [[]] + s == [[]] + m + rest
    ensures m <= s
  {
    assert s == ([[]] + s)[1..] == ([[]] + m + rest)[1..] == m + rest;
  }

  lemma PrefixMatches(s: Path, m: Path)
    requires m != [] && m <= s && |Slashed(m)| >= 2
    ensures PathMatchesMount(Text(s), Slashed(m))
    ensures StripMountPath(Text(s), Slashed(m)) == Text(s[|m|..])
  {
    hide Slashed;
    var rest := s[|m|..];
    SlashedConcat(m, rest);
    assert m + rest == s;
    var path: Bytes := Slashed(m) + Slashed(rest);
    assert path == Text(s);
    assert path[|Slashed(m)|..] == Slashed(rest);
  }

  lemma MatchIsPrefix(s: Path, m: Path)
    requires PlainPath(s) && PlainPath(m) && m != [] && |Slashed(m)| >= 2
    requires PathMatchesMount(Text(s), Slashed(m))
    ensures m <= s
  {
    hide Slashed, PlainPath;
    var path, mount := Text(s), Slashed(m);
    assert s != [];
    if path == mount {
      SlashedInjective(s, m);
    } else {
      var rest := path[|mount|..][1..];
      assert path == mount + [SLASH] + rest;
      MatchGivesPrefix(s, m, rest);
    }
  }

  /** Mounts match whole components: the mount's components are a prefix of the path's, or nothing. */
  lemma MatchesByComponent(s: Path, m: Path)
    requires PlainPath(s) && PlainPath(m) && m != []
    ensures PathMatchesMount(Text(s), Slashed(m)) <==> m <= s
    ensures m <= s ==> StripMountPath(Text(s), Slashed(m)) == Text(s[|m|..])
  {
    assert PlainName(m[|m| - 1]);
    assert |Slashed(m)| >= 2;
    hide Slashed, PathMatchesMount, StripMountPath, Text;
    if m <= s { PrefixMatches(s, m); }
    if PathMatchesMount(Text(s), Slashed(m)) { MatchIsPrefix(s, m); }
  }

  /** "persist" and "dev" */
  const PERSIST: Name := [112, 101, 114, 115, 105, 115, 116]
  const DEV: Name := [100, 101, 118]

  const ROOT_MOUNT_ID := 1
  const PERSISTENT_MOUNT_ID := 2
  const DEVICE_MOUNT_ID := 3

  function MountTable(persistent: bool): seq<Mount>
  {
    [Mount(ROOT_MOUNT_ID, [SLASH], true),
     Mount(PERSISTENT_MOUNT_ID, [SLASH] + PERSIST, persistent),
     Mount(DEVICE_MOUNT_ID, [SLASH] + DEV, true)]
  }

  /** Where a normalized path goes. */
  function Route(s: Path, persistent: bool): (nat, Path)
  {
    if persistent && [PERSIST] <= s then (PERSISTENT_MOUNT_ID, s[1..])
    else if [DEV] <= s then (DEVICE_MOUNT_ID, s[1..])
    else (ROOT_MOUNT_ID, s)
  }

  /** Any resolution the table admits is the route by components, and the backend path is canonical again. */
  lemma ResolveIsRoute(s: Path, persistent: bool, m: Mount, backend: Bytes)
    requires Canonical(s)
    requires m in MountTable(persistent) && Serves(m, Text(s)) && backend == StripMountPath(Text(s), m.path)
    requires forall i | 0 <= i < 3 && Serves(MountTable(persistent)[i], Text(s)) ::
               |MountTable(persistent)[i].path| <= |m.path|
    ensures (m.id, backend) == (Route(s, persistent).0, Text(Route(s, persistent).1))
  {
    CanonicalPlain(s);
    assert Slashed([PERSIST]) == [SLASH] + PERSIST;
    assert Slashed([DEV]) == [SLASH] + DEV;
    MatchesByComponent(s, [PERSIST]);
    MatchesByComponent(s, [DEV]);
    hide Slashed, Text, PlainPath, Canonical;
    var table := MountTable(persistent);
    assert Serves(table[0], Text(s));
    assert Serves(table[1], Text(s)) <==> persistent && [PERSIST] <= s;
    assert Serves(table[2], Text(s)) <==> [DEV] <= s;
  }
}
