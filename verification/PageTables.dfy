/** Four-level page tables in physical memory, and the private copy of one path through them. */
module PageTables {
  import opened Base

  type Frame = nat

  datatype Flags = Flags(present: bool, writable: bool, user: bool, huge: bool, noExecute: bool, rest: nat)

  datatype Entry = Entry(frame: Frame, flags: Flags)

  const NO_FLAGS := Flags(false, false, false, false, false, 0)
  const NO_ENTRY := Entry(0, NO_FLAGS)

  type PageTable = t: seq<Entry> | |t| == 512 witness seq(512, i => NO_ENTRY)

  /** What the frames of physical memory hold when read as page tables; unmentioned frames hold no entries. */
  type Memory = map<Frame, PageTable>

  function Read(mem: Memory, f: Frame): PageTable
  {
    if f in mem then mem[f] else seq(512, i => NO_ENTRY)
  }

  type Index = i: nat | i < 512

  /** Where a virtual page leads: nowhere, to the page of a last-level entry, or into a huge page. */
  datatype Target = Unmapped | Mapped(entry: Entry) | Huge(entry: Entry, rest: seq<Index>)

  /** The processor's walk from table `f` along the indices of a page. */
  function Walk(mem: Memory, f: Frame, path: seq<Index>): Target
    requires path != []
    decreases |path|
  {
    var e := Read(mem, f)[path[0]];
    if !e.flags.present then Unmapped
    else if |path| == 1 then Mapped(e)
    else if e.flags.huge then Huge(e, path[1..])
    else Walk(mem, e.frame, path[1..])
  }

  /** An entry that leads on to a table. */
  predicate LeadsOn(e: Entry) { e.flags.present && !e.flags.huge }

  /** No walk of `n` steps from table `f` reads a table in `xs`. */
  ghost predicate Avoids(mem: Memory, f: Frame, n: nat, xs: set<Frame>)
    decreases n, 1
  {
    f !in xs && ChildrenAvoid(mem, f, n, xs)
  }

  ghost predicate ChildrenAvoid(mem: Memory, f: Frame, n: nat, xs: set<Frame>)
    decreases n, 0
  {
    n > 1 ==> forall i: Index | LeadsOn(Read(mem, f)[i]) :: Avoids(mem, Read(mem, f)[i].frame, n - 1, xs)
  }

  /** Two memories agree outside `xs`. */
  ghost predicate SameOutside(a: Memory, b: Memory, xs: set<Frame>)
  {
    forall f | f !in xs :: Read(a, f) == Read(b, f)
  }

  lemma {:induction false} AvoidsLess(mem: Memory, f: Frame, n: nat, xs: set<Frame>, ys: set<Frame>)
    requires ys <= xs && ChildrenAvoid(mem, f, n, xs)
    ensures ChildrenAvoid(mem, f, n, ys)
    decreases n
  {
    if n > 1 {
      forall i: Index | LeadsOn(Read(mem, f)[i]) ensures Avoids(mem, Read(mem, f)[i].frame, n - 1, ys) {
        assert Avoids(mem, Read(mem, f)[i].frame, n - 1, xs);
        AvoidsLess(mem, Read(mem, f)[i].frame, n - 1, xs, ys);
      }
    }
  }

  /** A walk that avoids the changed frames goes where it went, and still avoids them. */
  lemma {:induction false} WalkSame(a: Memory, b: Memory, f: Frame, n: nat, xs: set<Frame>)
    requires SameOutside(a, b, xs) && Avoids(a, f, n, xs) && n > 0
    ensures Avoids(b, f, n, xs)
    ensures forall q: seq<Index> | |q| == n :: Walk(b, f, q) == Walk(a, f, q)
    decreases n
  {
    CopySame(a, b, f, f, n, xs);
  }

  /** The same for a table `g` that holds what `f` held before, wherever `g` lies. */
  lemma {:induction false} CopySame(a: Memory, b: Memory, f: Frame, g: Frame, n: nat, xs: set<Frame>)
    requires SameOutside(a, b, xs) && ChildrenAvoid(a, f, n, xs) && Read(b, g) == Read(a, f) && n > 0
    ensures ChildrenAvoid(b, g, n, xs)
    ensures forall q: seq<Index> | |q| == n :: Walk(b, g, q) == Walk(a, f, q)
    decreases n
  {
    if n > 1 {
      forall i: Index | LeadsOn(Read(b, g)[i])
        ensures Avoids(b, Read(b, g)[i].frame, n - 1, xs)
        ensures forall q: seq<Index> | |q| == n - 1 ::
                  Walk(b, Read(b, g)[i].frame, q) == Walk(a, Read(b, g)[i].frame, q)
      {
        assert Avoids(a, Read(a, f)[i].frame, n - 1, xs);
        CopySame(a, b, Read(a, f)[i].frame, Read(a, f)[i].frame, n - 1, xs);
      }
      forall q: seq<Index> | |q| == n ensures Walk(b, g, q) == Walk(a, f, q) {
        var e := Read(a, f)[q[0]];
        if LeadsOn(e) { assert |q[1..]| == n - 1; }
      }
    }
  }

  // ----- Mapping one page privately -----

  datatype PagingError = PrivateMappingNotFound | FrameAllocationFailed

  /** The memory afterwards, how many fresh frames went, and what went wrong. */
  datatype MapResult = MapResult(mem: Memory, used: nat, error: Option<PagingError>)

  function Put(mem: Memory, f: Frame, i: Index, e: Entry): Memory { mem[f := Read(mem, f)[i := e]] }

  /** The entry of the parent once its child has been cloned into `into`. */
  function ClonedEntry(e: Entry, into: Frame): Entry { Entry(into, e.flags.(present := true, writable := true)) }

  /** Clone the tables on the path below `f` into fresh frames and set the last entry. */
  function MapAt(mem: Memory, spare: seq<Frame>, f: Frame, path: seq<Index>, leaf: Entry): (r: MapResult)
    requires path != []
    ensures r.used <= |spare| && r.used < |path|
    decreases |path|
  {
    if |path| == 1 then MapResult(Put(mem, f, path[0], leaf), 0, None)
    else
      var e := Read(mem, f)[path[0]];
      if !LeadsOn(e) then MapResult(mem, 0, Some(PrivateMappingNotFound))
      else if spare == [] then MapResult(mem, 0, Some(FrameAllocationFailed))
      else
        var copied := mem[spare[0] := Read(mem, e.frame)];
        var linked := Put(copied, f, path[0], ClonedEntry(e, spare[0]));
        var r := MapAt(linked, spare[1..], spare[0], path[1..], leaf);
        r.(used := r.used + 1)
  }

  function Elems(s: seq<Frame>): set<Frame> { set x | x in s }

  /** Writes go to the table itself and to the fresh frames used. */
  lemma {:induction false} MapAtWrites(mem: Memory, spare: seq<Frame>, f: Frame, path: seq<Index>, leaf: Entry)
    requires path != []
    ensures var r := MapAt(mem, spare, f, path, leaf);
            SameOutside(mem, r.mem, {f} + Elems(spare[..r.used]))
    decreases |path|
  {
    var r := MapAt(mem, spare, f, path, leaf);
    if |path| > 1 {
      var e := Read(mem, f)[path[0]];
      if LeadsOn(e) && spare != [] {
        var copied := mem[spare[0] := Read(mem, e.frame)];
        var linked := Put(copied, f, path[0], ClonedEntry(e, spare[0]));
        MapAtWrites(linked, spare[1..], spare[0], path[1..], leaf);
        assert spare[..r.used] == [spare[0]] + spare[1..][..r.used - 1];
        assert spare[0] in spare[..r.used];
        forall g | g !in {f} + Elems(spare[..r.used]) ensures Read(mem, g) == Read(r.mem, g) {
          assert g != spare[0];
          assert g !in spare[..r.used];
          assert g !in spare[1..][..r.used - 1];
          assert Read(linked, g) == Read(mem, g);
        }
      }
    }
  }

  /** Fresh frames: all different, not the table itself. */
  ghost predicate FreshFor(spare: seq<Frame>, f: Frame) { Distinct(spare) && f !in spare }

  /** The state between cloning the child of `f` and going on inside the clone. */
  function Linked(mem: Memory, f: Frame, i: Index, into: Frame): Memory
  {
    var e := Read(mem, f)[i];
    Put(mem[into := Read(mem, e.frame)], f, i, ClonedEntry(e, into))
  }

  lemma LinkedFacts(mem: Memory, f: Frame, i: Index, into: Frame, n: nat, xs: set<Frame>)
    requires f in xs && into in xs && f != into && n > 1 && ChildrenAvoid(mem, f, n, xs) && LeadsOn(Read(mem, f)[i])
    ensures var linked := Linked(mem, f, i, into);
            && SameOutside(mem, linked, {f, into})
            && Read(linked, f) == Read(mem, f)[i := ClonedEntry(Read(mem, f)[i], into)]
            && ChildrenAvoid(linked, into, n - 1, xs)
            && forall q: seq<Index> | |q| == n - 1 :: Walk(linked, into, q) == Walk(mem, Read(mem, f)[i].frame, q)
  {
    var linked := Linked(mem, f, i, into);
    var c := Read(mem, f)[i].frame;
    assert Avoids(mem, c, n - 1, xs);
    assert SameOutside(mem, linked, xs);
    CopySame(mem, linked, c, into, n - 1, xs);
  }

  /**
    One page is remapped, every other page of the space goes where it went; afterwards the space avoids
    the frames that are still fresh.
   */
  lemma {:induction false} MapAtWalk(mem: Memory, spare: seq<Frame>, f: Frame, path: seq<Index>, leaf: Entry,
                                     xs: set<Frame>)
    requires path != [] && leaf.flags.present && FreshFor(spare, f)
    requires f in xs && Elems(spare) <= xs && ChildrenAvoid(mem, f, |path|, xs)
    ensures var r := MapAt(mem, spare, f, path, leaf);
            r.error.None? ==>
              && (forall q: seq<Index> | |q| == |path| ::
                    Walk(r.mem, f, q) == if q == path then Mapped(leaf) else Walk(mem, f, q))
              && ChildrenAvoid(r.mem, f, |path|, xs - Elems(spare[..r.used]))
    decreases |path|, 1
  {
    var r := MapAt(mem, spare, f, path, leaf);
    if |path| == 1 {
      forall q: seq<Index> | |q| == 1 ensures Walk(r.mem, f, q) == if q == path then Mapped(leaf) else Walk(mem, f, q) {
        assert q == path <==> q[0] == path[0];
      }
    } else if r.error.None? {
      MapAtDeeper(mem, spare, f, path, leaf, xs);
    }
  }

  lemma SpareSplit(spare: seq<Frame>, used: nat, f: Frame, xs: set<Frame>)
    requires FreshFor(spare, f) && used < |spare| && Elems(spare) <= xs
    ensures spare[0] in xs && FreshFor(spare[1..], spare[0]) && Elems(spare[1..]) <= xs
    ensures Elems(spare[..used + 1]) == {spare[0]} + Elems(spare[1..][..used])
    ensures f !in Elems(spare[..used + 1]) && Elems(spare[..used + 1]) <= xs
  {
    assert spare == [spare[0]] + spare[1..];
    assert spare[..used + 1] == [spare[0]] + spare[1..][..used];
    assert spare[0] in spare;
    forall x | x in Elems(spare[1..]) ensures x in xs { assert x in spare; }
    forall x | x in Elems(spare[..used + 1]) ensures x in xs && x != f { assert x in spare; }
  }

  lemma SameTrans(a: Memory, b: Memory, c: Memory, xs: set<Frame>, ys: set<Frame>, zs: set<Frame>)
    requires SameOutside(a, b, xs) && SameOutside(b, c, ys) && xs <= zs && ys <= zs
    ensures SameOutside(a, c, zs)
  {
    hide Read;
  }

  lemma {:induction false} MapAtDeeper(mem: Memory, spare: seq<Frame>, f: Frame, path: seq<Index>, leaf: Entry,
                                       xs: set<Frame>)
    requires |path| > 1 && leaf.flags.present && FreshFor(spare, f)
    requires f in xs && Elems(spare) <= xs && ChildrenAvoid(mem, f, |path|, xs)
    requires MapAt(mem, spare, f, path, leaf).error.None?
    ensures var r := MapAt(mem, spare, f, path, leaf);
            && (forall q: seq<Index> | |q| == |path| ::
                  Walk(r.mem, f, q) == if q == path then Mapped(leaf) else Walk(mem, f, q))
            && ChildrenAvoid(r.mem, f, |path|, xs - Elems(spare[..r.used]))
    decreases |path|, 0
  {
    hide Walk, ChildrenAvoid;
    var r := MapAt(mem, spare, f, path, leaf);
    var into, rest := spare[0], spare[1..];
    SpareSplit(spare, 0, f, xs);
    LinkedFacts(mem, f, path[0], into, |path|, xs);
    var linked := Linked(mem, f, path[0], into);
    var deep := MapAt(linked, rest, into, path[1..], leaf);
    assert r == deep.(used := deep.used + 1);
    hide MapAt, Linked;
    MapAtWalk(linked, rest, into, path[1..], leaf, xs);
    MapAtWrites(linked, rest, into, path[1..], leaf);
    SpareSplit(spare, deep.used, f, xs);
    SameTrans(mem, linked, deep.mem, {f, into}, {into} + Elems(rest[..deep.used]), xs);
    WalkAbove(mem, deep.mem, f, path, into, leaf, xs);
    var ys := xs - Elems(spare[..r.used]);
    AvoidsLess(deep.mem, into, |path| - 1, xs - Elems(rest[..deep.used]), ys);
    AvoidAbove(mem, deep.mem, f, |path|, path[0], into, xs, ys);
  }

  /** The table `f` after its child at `i` has been replaced by `into`: nothing else in it has changed. */
  ghost predicate OneChild(mem: Memory, after: Memory, f: Frame, i: Index, into: Frame)
  {
    LeadsOn(Read(mem, f)[i]) && Read(after, f) == Read(mem, f)[i := ClonedEntry(Read(mem, f)[i], into)]
  }

  /** From the clone up to the table above it: where walks go. */
  lemma WalkAbove(mem: Memory, after: Memory, f: Frame, path: seq<Index>, into: Frame, leaf: Entry, xs: set<Frame>)
    requires |path| > 1 && OneChild(mem, after, f, path[0], into) && SameOutside(mem, after, xs)
    requires ChildrenAvoid(mem, f, |path|, xs)
    requires forall q: seq<Index> | |q| == |path| - 1 ::
               Walk(after, into, q) == if q == path[1..] then Mapped(leaf)
                   else Walk(mem, Read(mem, f)[path[0]].frame, q)
    ensures forall q: seq<Index> | |q| == |path| ::
              Walk(after, f, q) == if q == path then Mapped(leaf) else Walk(mem, f, q)
  {
    forall q: seq<Index> | |q| == |path|
      ensures Walk(after, f, q) == if q == path then Mapped(leaf) else Walk(mem, f, q)
    {
      assert |q[1..]| == |path| - 1;
      assert q == [q[0]] + q[1..] && path == [path[0]] + path[1..];
      var e := Read(mem, f)[q[0]];
      if q[0] != path[0] && LeadsOn(e) {
        assert Avoids(mem, e.frame, |path| - 1, xs);
        WalkSame(mem, after, e.frame, |path| - 1, xs);
      }
    }
  }

  /** From the clone up to the table above it: which tables walks read. */
  lemma AvoidAbove(mem: Memory, after: Memory, f: Frame, n: nat, i: Index, into: Frame, xs: set<Frame>, ys: set<Frame>)
    requires n > 1 && OneChild(mem, after, f, i, into) && SameOutside(mem, after, xs) && ys <= xs
    requires ChildrenAvoid(mem, f, n, xs) && into !in ys && ChildrenAvoid(after, into, n - 1, ys)
    ensures ChildrenAvoid(after, f, n, ys)
  {
    forall k: Index | LeadsOn(Read(after, f)[k]) ensures Avoids(after, Read(after, f)[k].frame, n - 1, ys) {
      if k != i {
        assert Avoids(mem, Read(mem, f)[k].frame, n - 1, xs);
        WalkSame(mem, after, Read(mem, f)[k].frame, n - 1, xs);
        AvoidsLess(after, Read(mem, f)[k].frame, n - 1, xs, ys);
      }
    }
  }
}
