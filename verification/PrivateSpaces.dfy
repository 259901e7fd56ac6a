/** Private address spaces: own frames for program and stack pages, the kernel's translation for all others. */
module PrivateSpaces {
  import opened Base
  import opened PageTables
  import opened PageTrails
  import opened StackPool

  const PAGE: nat := 0x1000
  const MAX_PRIVATE_PROGRAM_PAGE_COUNT: nat := 64
  const PRIVATE_STACK_PAGE_COUNT: nat := 4

  /** The flags of a user data page. */
  const USER_DATA_FLAGS := Flags(true, true, true, false, true, 0)

  function Leaf(frame: Frame): Entry { Entry(frame, USER_DATA_FLAGS) }

  /** The four table indices of a virtual page (its address without the offset bits). */
  function PathOf(page: nat): (path: seq<Index>)
    ensures |path| == 4
  {
    [page / 0x800_0000 % 512, page / 0x4_0000 % 512, page / 0x200 % 512, page % 512]
  }

  /** Different pages of a 48-bit address space have different paths. */
  lemma PathInjective(a: nat, b: nat)
    requires a < 0x10_0000_0000 && b < 0x10_0000_0000 && PathOf(a) == PathOf(b)
    ensures a == b
  {
    assert PathOf(a)[3] == PathOf(b)[3] && PathOf(a)[2] == PathOf(b)[2];
    assert PathOf(a)[1] == PathOf(b)[1] && PathOf(a)[0] == PathOf(b)[0];
    PathValue(a);
    PathValue(b);
  }

  lemma PathValue(page: nat)
    requires page < 0x10_0000_0000
    ensures var a: nat, b: nat, c: nat, d: nat := PathOf(page)[0], PathOf(page)[1], PathOf(page)[2], PathOf(page)[3];
            page == a * 0x800_0000 + b * 0x4_0000 + c * 0x200 + d
  {
    var a, b, c := page / 0x200, page / 0x4_0000, page / 0x800_0000;
    assert page == a * 0x200 + page % 512;
    assert b == a / 0x200 && a == b * 0x200 + a % 512;
    assert c == b / 0x200 && b == c * 0x200 + b % 512;
    assert c < 512;
  }

  /** Program page `index`, and page `index` of stack `slot`. */
  function ProgramPage(index: nat): nat { FIRST_USER_ENTRY / PAGE + index }

  function StackPage(slot: nat, index: nat): nat
    requires slot < STACK_SLOTS
  {
    StackRangeForSlot(slot).0 / PAGE + index
  }

  /** The three entries above the last one of a page are present and not huge. */
  predicate LeadsDown(mem: Memory, root: Frame, page: nat)
  {
    var path := PathOf(page);
    var e := Read(mem, root)[path[0]];
    LeadsOn(e) &&
    var d := Read(mem, e.frame)[path[1]];
    LeadsOn(d) && LeadsOn(Read(mem, d.frame)[path[2]])
  }

  lemma LeadsDownIff(mem: Memory, root: Frame, page: nat)
    ensures LeadsDown(mem, root, page) <==> |Trail(mem, root, PathOf(page))| == 3
  {
    var path := PathOf(page);
    var e := Read(mem, root)[path[0]];
    var d := Read(mem, e.frame)[path[1]];
    assert path[1..][0] == path[1] && path[1..][1..] == path[2..] && path[2..][0] == path[2];
    assert Trail(mem, root, path) == if LeadsOn(e) then [e.flags] + Trail(mem, e.frame, path[1..]) else [];
    assert Trail(mem, e.frame, path[1..]) == if LeadsOn(d) then [d.flags] + Trail(mem, d.frame, path[2..]) else [];
  }

  // ----- The space under construction -----

  /** Pages of a list, all below the 48-bit limit and all different. */
  ghost predicate PagesOk(pages: seq<nat>)
  {
    Distinct(pages) && forall k | 0 <= k < |pages| :: pages[k] < 0x10_0000_0000
  }

  /** `q` is the path of none of the pages. */
  ghost predicate Elsewhere(q: seq<Index>, pages: seq<nat>)
  {
    forall k | 0 <= k < |pages| :: q != PathOf(pages[k])
  }

  /** Entry `j` on the way of `q` is also on the way of one of the pages. */
  ghost predicate OnWay(q: seq<Index>, j: nat, pages: seq<nat>)
    requires |q| == 4 && j < 4
  {
    exists k | 0 <= k < |pages| :: Shares(PathOf(pages[k]), q, j)
  }

  /** The entries above the last are as they were, those on the way of one of the pages made writable. */
  ghost predicate RaisedFor(before: seq<Flags>, after: seq<Flags>, q: seq<Index>, pages: seq<nat>)
    requires |q| == 4 && |before| < 4
  {
    && |after| == |before|
    && forall j | 0 <= j < |before| ::
         after[j] == if OnWay(q, j, pages) then before[j].(writable := true) else before[j]
  }

  /** Every way down from `p4` is the way down from `kernel` in `mem0`, writable above the pages. */
  ghost predicate TrailsRaised(mem0: Memory, kernel: Frame, mem: Memory, p4: Frame, pages: seq<nat>)
  {
    forall q: seq<Index> | |q| == 4 :: RaisedFor(Trail(mem0, kernel, q), Trail(mem, p4, q), q, pages)
  }

  /** In `mem`, the root `p4` sends `pages` to `frames` and every other page where `kernel` sent it in `mem0`. */
  ghost predicate Translates(mem0: Memory, kernel: Frame, mem: Memory, p4: Frame, pages: seq<nat>, frames: seq<Frame>)
  {
    && |frames| == |pages|
    && (forall k | 0 <= k < |pages| :: Walk(mem, p4, PathOf(pages[k])) == Mapped(Leaf(frames[k])))
    && (forall q: seq<Index> | |q| == 4 && Elsewhere(q, pages) :: Walk(mem, p4, q) == Walk(mem0, kernel, q))
    && TrailsRaised(mem0, kernel, mem, p4, pages)
  }

  /** Frames taken from the front of `spare0`, leaving `spare`. */
  ghost predicate TakenFrom(spare0: seq<Frame>, spare: seq<Frame>)
  {
    exists n :: 0 <= n <= |spare0| && spare == spare0[n..]
  }

  /** A space with some of its pages mapped; its frames are its own. */
  ghost predicate Building(mem0: Memory, kernel: Frame, spare0: seq<Frame>, mem: Memory, p4: Frame, spare: seq<Frame>,
                           pages: seq<nat>, frames: seq<Frame>)
  {
    && FreshFor(spare0, p4) && TakenFrom(spare0, spare)
    && SameOutside(mem0, mem, {p4} + (Elems(spare0) - Elems(spare)))
    && Translates(mem0, kernel, mem, p4, pages, frames)
    && ChildrenAvoid(mem, p4, 4, {p4} + Elems(spare))
    && Distinct(frames) && Elems(frames) <= Elems(spare0) - Elems(spare)
  }

  lemma TakenFresh(spare0: seq<Frame>, spare: seq<Frame>, p4: Frame)
    requires FreshFor(spare0, p4) && TakenFrom(spare0, spare)
    ensures FreshFor(spare, p4) && Elems(spare) <= Elems(spare0)
  {
    TakenElems(spare0, spare);
    assert p4 !in Elems(spare0);
  }

  lemma TakenElems(spare0: seq<Frame>, spare: seq<Frame>)
    requires TakenFrom(spare0, spare)
    ensures Elems(spare) <= Elems(spare0)
    ensures Distinct(spare0) ==> Distinct(spare)
  {
    var n :| 0 <= n <= |spare0| && spare == spare0[n..];
    forall x | x in spare ensures x in spare0 {}
  }

  /** Dropping `n` more frames from the front. */
  lemma TakeMore(spare0: seq<Frame>, spare: seq<Frame>, n: nat)
    requires Distinct(spare0) && TakenFrom(spare0, spare) && n <= |spare|
    ensures TakenFrom(spare0, spare[n..])
    ensures Elems(spare) == Elems(spare[..n]) + Elems(spare[n..])
    ensures Elems(spare[..n]) !! Elems(spare[n..])
  {
    var m :| 0 <= m <= |spare0| && spare == spare0[m..];
    assert spare[n..] == spare0[m + n..];
    SplitElems(spare, n);
  }

  lemma SplitElems(s: seq<Frame>, n: nat)
    requires Distinct(s) && n <= |s|
    ensures Elems(s) == Elems(s[..n]) + Elems(s[n..]) && Elems(s[..n]) !! Elems(s[n..])
  {
    var a, b := s[..n], s[n..];
    assert s == a + b;
    forall x | x in a ensures x !in b {
      var k :| 0 <= k < n && a[k] == x;
      assert s[k] == x;
      forall l | 0 <= l < |b| ensures b[l] != x { assert b[l] == s[n + l]; }
    }
  }

  /** The copied root is a space with nothing mapped yet. */
  lemma BuildingStarts(mem0: Memory, kernel: Frame, spare: seq<Frame>, p4: Frame)
    requires FreshFor(spare, p4) && Avoids(mem0, kernel, 4, {p4} + Elems(spare))
    ensures Building(mem0, kernel, spare, mem0[p4 := Read(mem0, kernel)], p4, spare, [], [])
  {
    var mem := mem0[p4 := Read(mem0, kernel)];
    assert spare == spare[0..];
    assert SameOutside(mem0, mem, {p4});
    assert SameOutside(mem0, mem, {p4} + Elems(spare));
    CopySame(mem0, mem, kernel, p4, 4, {p4} + Elems(spare));
    CopyTrail(mem0, mem, kernel, p4, 4, {p4} + Elems(spare));
    hide Trail;
    assert TrailsRaised(mem0, kernel, mem, p4, []);
  }

  lemma RaisedMore(a: seq<Flags>, b: seq<Flags>, c: seq<Flags>, q: seq<Index>, pages: seq<nat>, page: nat)
    requires |q| == 4 && |a| < 4 && RaisedFor(a, b, q, pages) && Raised(b, c, PathOf(page), q)
    ensures RaisedFor(a, c, q, pages + [page])
  {
    hide PathOf, Shares;
    var more := pages + [page];
    assert more[|pages|] == page;
    forall j | 0 <= j < |a| ensures OnWay(q, j, more) <==> OnWay(q, j, pages) || Shares(PathOf(page), q, j) {
      if OnWay(q, j, pages) {
        var k :| 0 <= k < |pages| && Shares(PathOf(pages[k]), q, j);
        assert more[k] == pages[k];
      }
    }
  }

  lemma TranslatesStep(mem0: Memory, kernel: Frame, a: Memory, b: Memory, p4: Frame, pages: seq<nat>,
                       frames: seq<Frame>, page: nat, frame: Frame)
    requires Translates(mem0, kernel, a, p4, pages, frames) && PagesOk(pages + [page])
    requires forall q: seq<Index> | |q| == 4 ::
               Walk(b, p4, q) == if q == PathOf(page) then Mapped(Leaf(frame)) else Walk(a, p4, q)
    requires forall q: seq<Index> | |q| == 4 :: Raised(Trail(a, p4, q), Trail(b, p4, q), PathOf(page), q)
    ensures Translates(mem0, kernel, b, p4, pages + [page], frames + [frame])
  {
    hide Walk, Trail, Raised, RaisedFor;
    var more := pages + [page];
    forall q: seq<Index> | |q| == 4 ensures RaisedFor(Trail(mem0, kernel, q), Trail(b, p4, q), q, more) {
      assert RaisedFor(Trail(mem0, kernel, q), Trail(a, p4, q), q, pages);
      RaisedMore(Trail(mem0, kernel, q), Trail(a, p4, q), Trail(b, p4, q), q, pages, page);
    }
    forall k | 0 <= k < |more| ensures Walk(b, p4, PathOf(more[k])) == Mapped(Leaf((frames + [frame])[k])) {
      if k < |pages| {
        assert more[k] != more[|pages|];
        if PathOf(more[k]) == PathOf(page) { PathInjective(more[k], page); }
      }
    }
    forall q: seq<Index> | |q| == 4 && Elsewhere(q, more) ensures Walk(b, p4, q) == Walk(mem0, kernel, q) {
      assert q != PathOf(more[|pages|]);
      forall k | 0 <= k < |pages| ensures q != PathOf(pages[k]) { assert q != PathOf(more[k]); }
    }
  }

  /** One more page: a data frame and the clones come off the front of the spare frames. */
  lemma BuildingStep(mem0: Memory, kernel: Frame, spare0: seq<Frame>, mem: Memory, p4: Frame, spare: seq<Frame>,
                     pages: seq<nat>, frames: seq<Frame>, page: nat)
    requires Building(mem0, kernel, spare0, mem, p4, spare, pages, frames) && PagesOk(pages + [page]) && spare != []
    ensures var r := MapAt(mem, spare[1..], p4, PathOf(page), Leaf(spare[0]));
            && SameOutside(mem0, r.mem, {p4} + (Elems(spare0) - Elems(spare[1..][r.used..])))
            && TakenFrom(spare0, spare[1..][r.used..])
            && (r.error.None? ==>
                  Building(mem0, kernel, spare0, r.mem, p4, spare[1..][r.used..], pages + [page], frames + [spare[0]]))
  {
    hide Walk, ChildrenAvoid, MapAt, Trail, Raised, TrailsRaised;
    var path, leaf := PathOf(page), Leaf(spare[0]);
    var r := MapAt(mem, spare[1..], p4, path, leaf);
    TakenFresh(spare0, spare, p4);
    TakeMore(spare0, spare, 1);
    assert Elems(spare[..1]) == {spare[0]} by { assert spare[..1] == [spare[0]]; }
    TakenFresh(spare0, spare[1..], p4);
    TakeMore(spare0, spare[1..], r.used);
    var xs := {p4} + Elems(spare[1..]);
    var after := spare[1..][r.used..];
    AvoidsLess(mem, p4, 4, {p4} + Elems(spare), xs);
    MapAtWrites(mem, spare[1..], p4, path, leaf);
    SameTrans(mem0, mem, r.mem, {p4} + (Elems(spare0) - Elems(spare)), {p4} + Elems(spare[1..][..r.used]),
              {p4} + (Elems(spare0) - Elems(after)));
    if r.error.None? {
      MapAtWalk(mem, spare[1..], p4, path, leaf, xs);
      MapAtTrails(mem, spare[1..], p4, path, leaf, xs);
      assert xs - Elems(spare[1..][..r.used]) == {p4} + Elems(after);
      TranslatesStep(mem0, kernel, mem, r.mem, p4, pages, frames, page, spare[0]);
      FramesGrow(spare0, spare, after, frames);
    }
  }

  /**
    One more page takes its data frame and a frame for each entry above it that leads on in the kernel's
    tables, and is mapped exactly when the frames suffice and all three of those entries lead on.
   */
  lemma StepOutcome(mem0: Memory, kernel: Frame, spare0: seq<Frame>, mem: Memory, p4: Frame, spare: seq<Frame>,
                    pages: seq<nat>, frames: seq<Frame>, page: nat)
    requires Building(mem0, kernel, spare0, mem, p4, spare, pages, frames) && spare != []
    ensures var r := MapAt(mem, spare[1..], p4, PathOf(page), Leaf(spare[0]));
            var n := |Trail(mem0, kernel, PathOf(page))|;
            && r.used == Min(|spare| - 1, n)
            && r.error == if |spare| - 1 < n then Some(FrameAllocationFailed)
                else if n < 3 then Some(PrivateMappingNotFound) else None
  {
    hide MapAt, Walk, ChildrenAvoid, SameOutside, PathOf, Trail;
    TakenFresh(spare0, spare, p4);
    var xs := {p4} + Elems(spare);
    assert FreshFor(spare[1..], p4) && Elems(spare[1..]) <= xs by { TailFresh(spare, p4); }
    MapAtOutcome(mem, spare[1..], p4, PathOf(page), Leaf(spare[0]), xs);
    assert RaisedFor(Trail(mem0, kernel, PathOf(page)), Trail(mem, p4, PathOf(page)), PathOf(page), pages);
  }

  lemma TailFresh(spare: seq<Frame>, p4: Frame)
    requires spare != [] && FreshFor(spare, p4)
    ensures FreshFor(spare[1..], p4) && Elems(spare[1..]) <= Elems(spare)
  {
    forall x | x in spare[1..] ensures x in spare {}
  }

  lemma FramesGrow(spare0: seq<Frame>, spare: seq<Frame>, after: seq<Frame>, frames: seq<Frame>)
    requires Distinct(frames) && Elems(frames) <= Elems(spare0) - Elems(spare)
    requires spare != [] && Elems(after) <= Elems(spare) && spare[0] !in Elems(after) && spare[0] in Elems(spare0)
    ensures Distinct(frames + [spare[0]]) && Elems(frames + [spare[0]]) <= Elems(spare0) - Elems(after)
  {
    forall k | 0 <= k < |frames| ensures frames[k] != spare[0] { assert frames[k] in Elems(frames); }
    forall x | x in Elems(frames + [spare[0]]) ensures x in Elems(spare0) - Elems(after) {
      if x != spare[0] { assert x in Elems(frames); }
    }
  }

  // ----- A finished space -----

  /** The pages of a slot in the order they are mapped: the program, then stack after stack. */
  ghost function SlotPages(count: nat): (pages: seq<nat>)
    requires count <= MAX_PRIVATE_PROGRAM_PAGE_COUNT
    ensures |pages| == count + 32
  {
    seq(count + 32, (k: nat) requires k < count + 32 => PageAt(count, k))
  }

  function PageAt(count: nat, k: nat): nat
    requires k < count + 32
  {
    if k < count then ProgramPage(k) else StackPage((k - count) / 4, (k - count) % 4)
  }

  /** The frames of a slot in the same order. */
  function SlotFrames(slot: P4Slot): seq<Frame> { slot.programFrames + Flatten(slot.stackFrames) }

  function Flatten(stacks: seq<seq<Frame>>): seq<Frame>
  {
    if stacks == [] then [] else Flatten(stacks[..|stacks| - 1]) + stacks[|stacks| - 1]
  }

  /** Frame `i` of stack `s`, in the flat order. */
  lemma {:induction false} FlattenAt(stacks: seq<seq<Frame>>, s: nat, i: nat)
    requires s < |stacks| && i < 4 && forall k | 0 <= k < |stacks| :: |stacks[k]| == 4
    ensures |Flatten(stacks)| == 4 * |stacks| && Flatten(stacks)[4 * s + i] == stacks[s][i]
  {
    var front := stacks[..|stacks| - 1];
    if front != [] { FlattenAt(front, if s < |front| then s else 0, i); }
  }

  lemma SlotPagesOk(count: nat)
    requires count <= MAX_PRIVATE_PROGRAM_PAGE_COUNT
    ensures PagesOk(SlotPages(count))
  {
    forall k | 0 <= k < count + 32 ensures SlotPages(count)[k] < 0x10_0000_0000 {}
    forall k, l | 0 <= k < l < count + 32 ensures SlotPages(count)[k] != SlotPages(count)[l] {
      PagesApart(count, k, l);
    }
  }

  /** An address of one of the eight stacks. */
  predicate InStack(addr: nat, s: nat)
    requires s < STACK_SLOTS
  {
    StackRangeForSlot(s).0 <= addr < StackRangeForSlot(s).1
  }

  /** Every address of the program area and of the eight stacks lies in one of the pages of a slot, and no other. */
  lemma PagesCover(count: nat, addr: nat)
    requires count <= MAX_PRIVATE_PROGRAM_PAGE_COUNT
    ensures addr / PAGE in SlotPages(count) <==>
              || FIRST_USER_ENTRY <= addr < FIRST_USER_ENTRY + count * PAGE
              || exists s: nat | s < STACK_SLOTS :: InStack(addr, s)
  {
    hide InStack, SlotPages;
    if addr / PAGE in SlotPages(count) { PageHolds(count, addr); }
    if FIRST_USER_ENTRY <= addr < FIRST_USER_ENTRY + count * PAGE { ProgramCovered(count, addr); }
    if s: nat :| s < STACK_SLOTS && InStack(addr, s) { StackCovered(count, addr, s); }
  }

  lemma PageHolds(count: nat, addr: nat)
    requires count <= MAX_PRIVATE_PROGRAM_PAGE_COUNT && addr / PAGE in SlotPages(count)
    ensures || FIRST_USER_ENTRY <= addr < FIRST_USER_ENTRY + count * PAGE
            || exists s: nat | s < STACK_SLOTS :: InStack(addr, s)
  {
    var k :| 0 <= k < count + 32 && SlotPages(count)[k] == addr / PAGE;
    if k >= count {
      var s, i := (k - count) / 4, (k - count) % 4;
      StackPageValue(s, i);
      assert InStack(addr, s);
    }
  }

  lemma ProgramCovered(count: nat, addr: nat)
    requires count <= MAX_PRIVATE_PROGRAM_PAGE_COUNT
    requires FIRST_USER_ENTRY <= addr < FIRST_USER_ENTRY + count * PAGE
    ensures addr / PAGE in SlotPages(count)
  {
    assert SlotPages(count)[addr / PAGE - 0x1000] == addr / PAGE;
  }

  lemma StackCovered(count: nat, addr: nat, s: nat)
    requires count <= MAX_PRIVATE_PROGRAM_PAGE_COUNT && s < STACK_SLOTS && InStack(addr, s)
    ensures addr / PAGE in SlotPages(count)
  {
    var i := addr / PAGE - (0x13FC - 5 * s);
    assert 0 <= i < 4;
    StackPageValue(s, i);
    assert (4 * s + i) / 4 == s && (4 * s + i) % 4 == i;
    assert SlotPages(count)[count + 4 * s + i] == addr / PAGE;
  }

  lemma PagesApart(count: nat, k: nat, l: nat)
    requires count <= MAX_PRIVATE_PROGRAM_PAGE_COUNT && k < l < count + 32
    ensures PageAt(count, k) != PageAt(count, l)
  {
    if k >= count {
      var i, j := k - count, l - count;
      assert i / 4 < j / 4 || (i / 4 == j / 4 && i % 4 < j % 4);
      StackPageValue(i / 4, i % 4);
      StackPageValue(j / 4, j % 4);
    } else if l >= count {
      StackPageValue((l - count) / 4, (l - count) % 4);
    }
  }

  lemma StackPageValue(slot: nat, index: nat)
    requires slot < STACK_SLOTS && index < 4
    ensures StackPage(slot, index) == 0x13FC - 5 * slot + index
  {
  }
}
