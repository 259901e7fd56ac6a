/** The entries above the last one on the way of a page: what mapping the page needs of them and does to them. */
module PageTrails {
  import opened Base
  import opened PageTables

  /** The flags of the entries above the last on the way of `path`, up to the first that does not lead on. */
  function Trail(mem: Memory, f: Frame, path: seq<Index>): (trail: seq<Flags>)
    requires path != []
    ensures |trail| < |path|
    decreases |path|
  {
    var e := Read(mem, f)[path[0]];
    if |path| == 1 || !LeadsOn(e) then [] else [e.flags] + Trail(mem, e.frame, path[1..])
  }

  /** A page is mapped only through entries that all lead on. */
  lemma {:induction false} MappedTrail(mem: Memory, f: Frame, path: seq<Index>)
    requires path != [] && Walk(mem, f, path).Mapped?
    ensures |Trail(mem, f, path)| == |path| - 1
    decreases |path|
  {
    if |path| > 1 { MappedTrail(mem, Read(mem, f)[path[0]].frame, path[1..]); }
  }

  lemma {:induction false} TrailLeads(mem: Memory, f: Frame, path: seq<Index>, j: nat)
    requires path != [] && j < |Trail(mem, f, path)|
    ensures Trail(mem, f, path)[j].present && !Trail(mem, f, path)[j].huge
    decreases |path|
  {
    if j > 0 { TrailLeads(mem, Read(mem, f)[path[0]].frame, path[1..], j - 1); }
  }

  /** A table that holds what `f` held has the trails of `f`, if they avoid the frames that have changed. */
  lemma {:induction false} CopyTrail(a: Memory, b: Memory, f: Frame, g: Frame, n: nat, xs: set<Frame>)
    requires SameOutside(a, b, xs) && ChildrenAvoid(a, f, n, xs) && Read(b, g) == Read(a, f) && n > 0
    ensures forall q: seq<Index> | |q| == n :: Trail(b, g, q) == Trail(a, f, q)
    decreases n
  {
    forall q: seq<Index> | |q| == n ensures Trail(b, g, q) == Trail(a, f, q) {
      var e := Read(a, f)[q[0]];
      if n > 1 && LeadsOn(e) {
        assert Avoids(a, e.frame, n - 1, xs);
        CopyTrail(a, b, e.frame, e.frame, n - 1, xs);
        assert |q[1..]| == n - 1;
      }
    }
  }

  /** The ways of `path` and `q` are the same as far as entry `j`. */
  predicate Shares(path: seq<Index>, q: seq<Index>, j: nat)
    requires |q| == |path| && j < |q|
  {
    q[..j + 1] == path[..j + 1]
  }

  /** The entries that `q` shares with `path` have become writable; nothing else has changed on the way of `q`. */
  ghost predicate Raised(before: seq<Flags>, after: seq<Flags>, path: seq<Index>, q: seq<Index>)
    requires |q| == |path| && |before| < |q|
  {
    && |after| == |before|
    && forall j | 0 <= j < |before| ::
         after[j] == if Shares(path, q, j) then before[j].(writable := true) else before[j]
  }

  /** One level up. */
  lemma RaisedAbove(flags: Flags, before: seq<Flags>, after: seq<Flags>, path: seq<Index>, q: seq<Index>)
    requires |q| == |path| > 1 && |before| < |q| - 1 && q[0] == path[0]
    requires Raised(before, after, path[1..], q[1..])
    ensures Raised([flags] + before, [flags.(writable := true)] + after, path, q)
  {
    forall j | 0 <= j < |before| + 1
      ensures ([flags.(writable := true)] + after)[j] ==
              if Shares(path, q, j) then ([flags] + before)[j].(writable := true) else ([flags] + before)[j]
    {
      assert q[..j + 1] == [q[0]] + q[1..][..j] && path[..j + 1] == [path[0]] + path[1..][..j];
      if j > 0 {
        assert q[..j + 1] == path[..j + 1] <==> q[1..][..j] == path[1..][..j] by {
          if q[..j + 1] == path[..j + 1] {
            assert q[..j + 1][1..] == q[1..][..j] && path[..j + 1][1..] == path[1..][..j];
          }
        }
      }
    }
  }

  lemma RaisedApart(before: seq<Flags>, path: seq<Index>, q: seq<Index>)
    requires |q| == |path| && |before| < |q| && q[0] != path[0]
    ensures Raised(before, before, path, q)
  {
    forall j | 0 <= j < |before| ensures !Shares(path, q, j) {
      assert q[..j + 1][0] == q[0] && path[..j + 1][0] == path[0];
    }
  }

  /**
    What mapping a page comes to. It takes a fresh frame for every entry of the trail; it fails where the
    trail breaks off, or before that where the frames run out.
   */
  lemma {:induction false} MapAtOutcome(mem: Memory, spare: seq<Frame>, f: Frame, path: seq<Index>, leaf: Entry,
                                        xs: set<Frame>)
    requires path != [] && FreshFor(spare, f)
    requires f in xs && Elems(spare) <= xs && ChildrenAvoid(mem, f, |path|, xs)
    ensures var r, n := MapAt(mem, spare, f, path, leaf), |Trail(mem, f, path)|;
            && r.used == Min(|spare|, n)
            && r.error == if |spare| < n then Some(FrameAllocationFailed)
                else if n < |path| - 1 then Some(PrivateMappingNotFound) else None
    decreases |path|
  {
    var e := Read(mem, f)[path[0]];
    if |path| > 1 && LeadsOn(e) && spare != [] {
      SpareSplit(spare, 0, f, xs);
      LinkedFacts(mem, f, path[0], spare[0], |path|, xs);
      var linked := Linked(mem, f, path[0], spare[0]);
      LinkedTrails(mem, f, path[0], spare[0], |path|, xs);
      MapAtOutcome(linked, spare[1..], spare[0], path[1..], leaf, xs);
    }
  }

  /** The clone has the trails of the table it was made from. */
  lemma LinkedTrails(mem: Memory, f: Frame, i: Index, into: Frame, n: nat, xs: set<Frame>)
    requires f in xs && into in xs && f != into && n > 1 && ChildrenAvoid(mem, f, n, xs) && LeadsOn(Read(mem, f)[i])
    ensures forall q: seq<Index> | |q| == n - 1 ::
              Trail(Linked(mem, f, i, into), into, q) == Trail(mem, Read(mem, f)[i].frame, q)
  {
    var linked := Linked(mem, f, i, into);
    var c := Read(mem, f)[i].frame;
    assert Avoids(mem, c, n - 1, xs);
    assert SameOutside(mem, linked, xs);
    CopyTrail(mem, linked, c, into, n - 1, xs);
  }

  /** Mapping a page makes the entries above it writable; no other flag on the way of any page changes. */
  lemma {:induction false} MapAtTrails(mem: Memory, spare: seq<Frame>, f: Frame, path: seq<Index>, leaf: Entry,
                                       xs: set<Frame>)
    requires path != [] && leaf.flags.present && FreshFor(spare, f)
    requires f in xs && Elems(spare) <= xs && ChildrenAvoid(mem, f, |path|, xs)
    requires MapAt(mem, spare, f, path, leaf).error.None?
    ensures forall q: seq<Index> | |q| == |path| ::
              Raised(Trail(mem, f, q), Trail(MapAt(mem, spare, f, path, leaf).mem, f, q), path, q)
    decreases |path|
  {
    if |path| > 1 {
      hide Walk, ChildrenAvoid, Trail, Raised;
      var r := MapAt(mem, spare, f, path, leaf);
      var into, rest := spare[0], spare[1..];
      SpareSplit(spare, 0, f, xs);
      LinkedFacts(mem, f, path[0], into, |path|, xs);
      LinkedTrails(mem, f, path[0], into, |path|, xs);
      var linked := Linked(mem, f, path[0], into);
      var deep := MapAt(linked, rest, into, path[1..], leaf);
      assert r == deep.(used := deep.used + 1);
      MapAtTrails(linked, rest, into, path[1..], leaf, xs);
      MapAtWrites(linked, rest, into, path[1..], leaf);
      SpareSplit(spare, deep.used, f, xs);
      hide MapAt, Linked;
      SameTrans(mem, linked, deep.mem, {f, into}, {into} + Elems(rest[..deep.used]), xs);
      TrailsAbove(mem, deep.mem, f, path, into, xs);
    }
  }

  /** From the clone up to the table above it. */
  lemma TrailsAbove(mem: Memory, after: Memory, f: Frame, path: seq<Index>, into: Frame, xs: set<Frame>)
    requires |path| > 1 && OneChild(mem, after, f, path[0], into) && SameOutside(mem, after, xs)
    requires ChildrenAvoid(mem, f, |path|, xs)
    requires forall q: seq<Index> | |q| == |path| - 1 ::
               Raised(Trail(mem, Read(mem, f)[path[0]].frame, q), Trail(after, into, q), path[1..], q)
    ensures forall q: seq<Index> | |q| == |path| :: Raised(Trail(mem, f, q), Trail(after, f, q), path, q)
  {
    hide Raised;
    forall q: seq<Index> | |q| == |path| ensures Raised(Trail(mem, f, q), Trail(after, f, q), path, q) {
      var e := Read(mem, f)[q[0]];
      assert |q[1..]| == |path| - 1;
      if q[0] == path[0] {
        RaisedAbove(e.flags, Trail(mem, e.frame, q[1..]), Trail(after, into, q[1..]), path, q);
      } else {
        if LeadsOn(e) {
          assert Avoids(mem, e.frame, |path| - 1, xs);
          CopyTrail(mem, after, e.frame, e.frame, |path| - 1, xs);
        }
        RaisedApart(Trail(mem, f, q), path, q);
      }
    }
  }
}
