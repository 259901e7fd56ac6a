/** How the private address spaces are prepared, in place, in physical memory. */
module SpaceSetup {
  import opened Base
  import opened PageTables
  import opened PageTrails
  import opened FrameAlloc
  import opened StackPool
  import opened PrivateSpaces

  /** One step of MapAt, told with the cloned child in place. */
  lemma MapAtStep(mem: Memory, spare: seq<Frame>, f: Frame, path: seq<Index>, leaf: Entry)
    requires |path| > 1
    ensures var e, r := Read(mem, f)[path[0]], MapAt(mem, spare, f, path, leaf);
            if !LeadsOn(e) then r == MapResult(mem, 0, Some(PrivateMappingNotFound))
            else if spare == [] then r == MapResult(mem, 0, Some(FrameAllocationFailed))
            else var deep := MapAt(Linked(mem, f, path[0], spare[0]), spare[1..], spare[0], path[1..], leaf);
                 r == deep.(used := deep.used + 1)
  {
  }

  lemma MapAtLast(mem: Memory, spare: seq<Frame>, f: Frame, path: seq<Index>, leaf: Entry)
    requires |path| == 1
    ensures MapAt(mem, spare, f, path, leaf) == MapResult(mem[f := Read(mem, f)[path[0] := leaf]], 0, None)
  {
  }

  /** What the memory, the kernel's root and the spare frames were before a space was prepared. */
  datatype Start = Start(mem: Memory, kernel: Frame, spare: seq<Frame>)

  /** The pages are mapped: each took four frames, and its upper entries led on. */
  ghost predicate Built(start: Start, mem: Memory, p4: Frame, spare: seq<Frame>, pages: seq<nat>, done: seq<Frame>)
  {
    && Building(start.mem, start.kernel, start.spare, mem, p4, spare, pages, done)
    && |start.spare| == |spare| + 4 * |pages|
    && AllLead(start.mem, start.kernel, pages)
  }

  ghost predicate AllLead(mem: Memory, root: Frame, pages: seq<nat>)
  {
    forall k | 0 <= k < |pages| :: LeadsDown(mem, root, pages[k])
  }

  /**
    Page `k` is the first that cannot be mapped. Either the frames give out, its data frame or one for the
    entries that do lead on, or there are enough to come to the entry that does not.
   */
  ghost predicate Stops(start: Start, pages: seq<nat>, k: nat, error: PagingError)
    requires k < |pages|
  {
    var left, n := |start.spare| - 4 * k, |Trail(start.mem, start.kernel, PathOf(pages[k]))|;
    && AllLead(start.mem, start.kernel, pages[..k])
    && 0 <= left && (left < 1 + n || n < 3)
    && error == if left < 1 + n then FrameAllocationFailed else PrivateMappingNotFound
  }

  /** How preparing the pages ends in an error. */
  ghost predicate Fails(start: Start, pages: seq<nat>, error: PagingError)
  {
    exists k: nat | k < |pages| :: Stops(start, pages, k, error)
  }

  /** There is at most one page to stop at, and one error to stop with. */
  lemma StopsOnce(start: Start, pages: seq<nat>, k: nat, error: PagingError, l: nat, other: PagingError)
    requires k < |pages| && l < |pages| && Stops(start, pages, k, error) && Stops(start, pages, l, other)
    ensures k == l && error == other
  {
    if k < l { StopsBefore(start, pages, k, error, l); }
    if l < k { StopsBefore(start, pages, l, other, k); }
  }

  lemma StopsBefore(start: Start, pages: seq<nat>, k: nat, error: PagingError, l: nat)
    requires k < l < |pages| && Stops(start, pages, k, error) && AllLead(start.mem, start.kernel, pages[..l])
    ensures |start.spare| < 4 * l
  {
    hide Trail, LeadsDown, PathOf;
    assert pages[..l][k] == pages[k];
    LeadsDownIff(start.mem, start.kernel, pages[k]);
  }

  /** Mapping one more page: where it leaves the space, or how it fails. */
  lemma FreshStep(start: Start, mem: Memory, p4: Frame, spare: seq<Frame>, pages: seq<nat>, done: seq<Frame>,
                  page: nat)
    requires Built(start, mem, p4, spare, pages, done) && PagesOk(pages + [page])
    ensures spare == [] ==> Stops(start, pages + [page], |pages|, FrameAllocationFailed)
    ensures spare != [] ==> p4 !in spare[1..]
    ensures spare != [] ==>
              var m := MapAt(mem, spare[1..], p4, PathOf(page), Leaf(spare[0]));
              var rest := spare[1..][m.used..];
              && Contained(start, m.mem, p4, rest)
              && (m.error.None? ==> Built(start, m.mem, p4, rest, pages + [page], done + [spare[0]]))
              && (m.error.Some? ==> Stops(start, pages + [page], |pages|, m.error.value))
  {
    hide Building, MapAt, TakenFrom, SameOutside, PagesOk, Elems, Trail, LeadsDown, PathOf;
    LeadsDownIff(start.mem, start.kernel, page);
    BuiltFresh(start, mem, p4, spare, pages, done);
    assert (pages + [page])[..|pages|] == pages;
    if spare != [] {
      BuildingStep(start.mem, start.kernel, start.spare, mem, p4, spare, pages, done, page);
      StepOutcome(start.mem, start.kernel, start.spare, mem, p4, spare, pages, done, page);
    }
  }

  lemma BuiltFresh(start: Start, mem: Memory, p4: Frame, spare: seq<Frame>, pages: seq<nat>, done: seq<Frame>)
    requires Built(start, mem, p4, spare, pages, done)
    ensures FreshFor(start.spare, p4) && FreshFor(spare, p4)
  {
    TakenFresh(start.spare, spare, p4);
  }

  lemma PrefixStops(start: Start, pages: seq<nat>, k: nat, error: PagingError)
    requires k < |pages| && Stops(start, pages[..k + 1], k, error)
    ensures Fails(start, pages, error)
  {
    hide AllLead, Trail, PathOf;
    assert pages[..k + 1][..k] == pages[..k] && pages[..k + 1][k] == pages[k];
    assert Stops(start, pages, k, error);
  }

  /** A preparation fails exactly when frames are short or some page's upper entries do not lead on. */
  lemma FailsShort(start: Start, pages: seq<nat>, error: PagingError)
    requires Fails(start, pages, error)
    ensures |start.spare| < 4 * |pages| || !AllLead(start.mem, start.kernel, pages)
  {
    hide Trail, LeadsDown, PathOf;
    var k: nat :| k < |pages| && Stops(start, pages, k, error);
    LeadsDownIff(start.mem, start.kernel, pages[k]);
  }

  /** Only the root and frames that were spare have been written. */
  ghost predicate Contained(start: Start, mem: Memory, p4: Frame, spare: seq<Frame>)
  {
    && FreshFor(start.spare, p4) && TakenFrom(start.spare, spare)
    && SameOutside(start.mem, mem, {p4} + (Elems(start.spare) - Elems(spare)))
  }

  lemma BuiltContained(start: Start, mem: Memory, p4: Frame, spare: seq<Frame>, pages: seq<nat>, done: seq<Frame>)
    requires Built(start, mem, p4, spare, pages, done)
    ensures Contained(start, mem, p4, spare)
  {
  }

  lemma BuiltCost(start: Start, mem: Memory, p4: Frame, spare: seq<Frame>, pages: seq<nat>, done: seq<Frame>)
    requires Built(start, mem, p4, spare, pages, done)
    ensures |start.spare| == |spare| + 4 * |pages| && AllLead(start.mem, start.kernel, pages)
  {
  }

  /** The next page to map differs from those before it. */
  lemma NextPage(count: nat, k: nat)
    requires count <= MAX_PRIVATE_PROGRAM_PAGE_COUNT && k < count + 32
    ensures SlotPages(count)[..k + 1] == SlotPages(count)[..k] + [PageAt(count, k)]
    ensures PagesOk(SlotPages(count)[..k] + [PageAt(count, k)])
  {
    SlotPagesOk(count);
    var pages := SlotPages(count);
    assert pages[..k + 1] == pages[..k] + [pages[k]];
  }

  lemma StackPageAt(count: nat, slot: nat, index: nat)
    requires count <= MAX_PRIVATE_PROGRAM_PAGE_COUNT && slot < STACK_SLOTS && index < 4
    ensures count + 4 * slot + index < count + 32
    ensures PageAt(count, count + 4 * slot + index) == StackRangeForSlot(slot).0 / PAGE + index
    ensures SlotPages(count)[count + 4 * slot + index] == StackRangeForSlot(slot).0 / PAGE + index
  {
    assert (4 * slot + index) / 4 == slot && (4 * slot + index) % 4 == index;
  }

  lemma FlattenMore(program: seq<Frame>, stacks: seq<seq<Frame>>, more: seq<Frame>)
    ensures program + Flatten(stacks) + more == program + Flatten(stacks + [more])
  {
    assert (stacks + [more])[..|stacks|] == stacks;
  }

  ghost predicate SlotShape(slot: P4Slot, count: nat)
  {
    && |slot.programFrames| == count && |slot.stackFrames| == STACK_SLOTS && slot.stackInUse == ALL_FREE && !slot.inUse
    && forall k | 0 <= k < STACK_SLOTS :: |slot.stackFrames[k]| == PRIVATE_STACK_PAGE_COUNT
  }

  // ----- The pool -----

  /** The frames of one space: its root, and for each page a data frame and the three tables above it. */
  function SpaceCost(count: nat): nat { 1 + 4 * (count + 32) }

  ghost function FramesOf(slot: P4Slot): set<Frame> { {slot.p4Frame} + Elems(SlotFrames(slot)) }

  /** One space of the pool: its pages lead to its own frames, all others where the kernel's lead. */
  ghost predicate OwnSpace(start: Start, mem: Memory, spare: seq<Frame>, slot: P4Slot, count: nat)
    requires count <= MAX_PRIVATE_PROGRAM_PAGE_COUNT
  {
    && SlotShape(slot, count)
    && Translates(start.mem, start.kernel, mem, slot.p4Frame, SlotPages(count), SlotFrames(slot))
    && Distinct([slot.p4Frame] + SlotFrames(slot))
    && FramesOf(slot) <= Elems(start.spare) - Elems(spare)
    && Avoids(mem, slot.p4Frame, 4, Elems(spare))
  }

  /** The whole pool: every space is in order, no two share a frame, the kernel's tables are as they were. */
  ghost predicate PoolReady(start: Start, mem: Memory, spare: seq<Frame>, slots: seq<P4Slot>, count: nat)
    requires count <= MAX_PRIVATE_PROGRAM_PAGE_COUNT
  {
    && Distinct(start.spare) && TakenFrom(start.spare, spare) && |slots| <= PRIVATE_P4_POOL_SIZE
    && SameOutside(start.mem, mem, Elems(start.spare) - Elems(spare))
    && Avoids(start.mem, start.kernel, 4, Elems(start.spare))
    && (forall k | 0 <= k < |slots| :: OwnSpace(start, mem, spare, slots[k], count))
    && (forall k, l | 0 <= k < l < |slots| :: FramesOf(slots[k]) !! FramesOf(slots[l]))
  }

  lemma PoolStarts(start: Start, count: nat)
    requires count <= MAX_PRIVATE_PROGRAM_PAGE_COUNT
    requires Distinct(start.spare) && Avoids(start.mem, start.kernel, 4, Elems(start.spare))
    ensures PoolReady(start, start.mem, start.spare, [], count)
  {
    assert start.spare == start.spare[0..];
  }

  /** From `root`, every page leads where it led, through entries with the flags they had. */
  ghost predicate SameWays(a: Memory, b: Memory, root: Frame)
  {
    && (forall q: seq<Index> | |q| == 4 :: Walk(b, root, q) == Walk(a, root, q))
    && (forall q: seq<Index> | |q| == 4 :: Trail(b, root, q) == Trail(a, root, q))
  }

  lemma WaysKept(a: Memory, b: Memory, root: Frame, xs: set<Frame>)
    requires SameOutside(a, b, xs) && Avoids(a, root, 4, xs)
    ensures SameWays(a, b, root) && Avoids(b, root, 4, xs)
  {
    WalkSame(a, b, root, 4, xs);
    CopyTrail(a, b, root, root, 4, xs);
  }

  lemma TranslatesSame(a: Memory, a': Memory, kernel: Frame, b: Memory, b': Memory, p4: Frame, pages: seq<nat>,
                       frames: seq<Frame>)
    requires Translates(a, kernel, b, p4, pages, frames) && SameWays(a, a', kernel) && SameWays(b, b', p4)
    ensures Translates(a', kernel, b', p4, pages, frames)
  {
    hide Walk, Trail, Elsewhere, RaisedFor, PathOf;
  }

  lemma SelfWays(mem: Memory, root: Frame)
    ensures SameWays(mem, mem, root)
  {
    hide Walk, Trail;
  }

  lemma LeadKept(a: Memory, b: Memory, root: Frame, pages: seq<nat>)
    requires SameWays(a, b, root)
    ensures AllLead(b, root, pages) <==> AllLead(a, root, pages)
  {
    hide Walk, Trail, LeadsDown, PathOf;
    forall k | 0 <= k < |pages| ensures LeadsDown(a, root, pages[k]) <==> LeadsDown(b, root, pages[k]) {
      LeadsDownIff(a, root, pages[k]);
      LeadsDownIff(b, root, pages[k]);
    }
  }

  /** The kernel's pages lead where they led, in every state of the preparation. */
  lemma KernelKept(start: Start, mem: Memory, spare: seq<Frame>, slots: seq<P4Slot>, count: nat)
    requires count <= MAX_PRIVATE_PROGRAM_PAGE_COUNT && PoolReady(start, mem, spare, slots, count)
    ensures SameWays(start.mem, mem, start.kernel)
    ensures forall q: seq<Index> | |q| == 4 :: Walk(mem, start.kernel, q) == Walk(start.mem, start.kernel, q)
    ensures Avoids(mem, start.kernel, 4, Elems(spare))
  {
    assert SameOutside(start.mem, mem, Elems(start.spare));
    TakenElems(start.spare, spare);
    WaysKept(start.mem, mem, start.kernel, Elems(start.spare));
    hide PoolReady, Walk, Trail, ChildrenAvoid;
    AvoidsLess(mem, start.kernel, 4, Elems(start.spare), Elems(spare));
  }

  /** What is left of `frames` after `spaces` spaces. */
  ghost predicate Leaves(frames: nat, cost: nat, spaces: nat, left: nat) { frames == spaces * cost + left }

  lemma LeavesLess(frames: nat, cost: nat, spaces: nat, left: nat)
    requires Leaves(frames, cost, spaces, left) && cost <= left
    ensures Leaves(frames, cost, spaces + 1, left - cost)
  {
  }

  lemma AtLeast(cost: nat, spaces: nat, left: nat)
    requires cost > 0
    ensures (spaces * cost + left) / cost >= spaces
  {
    var frames := spaces * cost + left;
    var whole := frames / cost;
    assert frames == whole * cost + frames % cost;
    if whole < spaces { MulLess(whole + 1, spaces, cost); }
  }

  lemma MulLess(a: nat, b: nat, c: nat)
    requires a <= b
    ensures a * c <= b * c
  {
    assert b * c == a * c + (b - a) * c;
  }

  lemma Exactly(cost: nat, spaces: nat, left: nat)
    requires left < cost
    ensures (spaces * cost + left) / cost == spaces
  {
    AtLeast(cost, spaces, left);
    var frames := spaces * cost + left;
    var whole := frames / cost;
    assert frames == whole * cost + frames % cost;
    if spaces < whole { MulLess(spaces + 1, whole, cost); }
  }

  /** Spaces are added until the frames left are too few for one more, or there are eight. */
  lemma PoolCount(frames: nat, cost: nat, spaces: nat, left: nat)
    requires cost > 0 && spaces <= PRIVATE_P4_POOL_SIZE && Leaves(frames, cost, spaces, left)
    requires spaces == PRIVATE_P4_POOL_SIZE || left < cost
    ensures spaces == Min(PRIVATE_P4_POOL_SIZE, frames / cost)
  {
    if left < cost { Exactly(cost, spaces, left); } else { AtLeast(cost, spaces, left); }
  }

  lemma SpareHead(start: Start, mem: Memory, spare: seq<Frame>, slots: seq<P4Slot>, count: nat)
    requires count <= MAX_PRIVATE_PROGRAM_PAGE_COUNT && PoolReady(start, mem, spare, slots, count) && spare != []
    ensures FreshFor(spare[1..], spare[0]) && {spare[0]} + Elems(spare[1..]) == Elems(spare)
    ensures Avoids(mem, start.kernel, 4, {spare[0]} + Elems(spare[1..]))
  {
    hide PoolReady, Avoids, SameWays, Walk, Elems, TakenFrom, FreshFor;
    KernelKept(start, mem, spare, slots, count);
    SpareDistinct(start, mem, spare, slots, count);
    HeadFresh(spare);
  }

  lemma SpareDistinct(start: Start, mem: Memory, spare: seq<Frame>, slots: seq<P4Slot>, count: nat)
    requires count <= MAX_PRIVATE_PROGRAM_PAGE_COUNT && PoolReady(start, mem, spare, slots, count)
    ensures Distinct(spare)
  {
    TakenElems(start.spare, spare);
  }

  lemma HeadFresh(spare: seq<Frame>)
    requires spare != [] && Distinct(spare)
    ensures FreshFor(spare[1..], spare[0]) && {spare[0]} + Elems(spare[1..]) == Elems(spare)
  {
    assert spare == [spare[0]] + spare[1..];
  }

  lemma SuffixTrans(a: seq<Frame>, b: seq<Frame>, c: seq<Frame>)
    requires TakenFrom(a, b) && b != [] && TakenFrom(b[1..], c)
    ensures TakenFrom(a, c) && TakenFrom(b, c)
  {
    hide TakenFrom;
    var n := TakenPlace(a, b);
    var m := TakenPlace(b[1..], c);
    DropDrop(b, 1, m);
    DropDrop(a, n, m + 1);
    TakenAt(b, m + 1);
    TakenAt(a, n + (m + 1));
  }

  lemma TakenPlace(a: seq<Frame>, b: seq<Frame>) returns (n: nat)
    requires TakenFrom(a, b)
    ensures n <= |a| && b == a[n..]
  {
    n :| 0 <= n <= |a| && b == a[n..];
  }

  lemma TakenAt(a: seq<Frame>, n: nat)
    requires n <= |a|
    ensures TakenFrom(a, a[n..])
  {
  }

  lemma DropDrop(a: seq<Frame>, n: nat, m: nat)
    requires n + m <= |a|
    ensures a[n..][m..] == a[n + m..]
  {
  }

  /** A space is not disturbed by writes to frames that are still spare. */
  lemma OwnSpaceKept(start: Start, a: Memory, spare: seq<Frame>, b: Memory, spare': seq<Frame>, slot: P4Slot,
                     count: nat)
    requires count <= MAX_PRIVATE_PROGRAM_PAGE_COUNT && OwnSpace(start, a, spare, slot, count)
    requires SameOutside(a, b, Elems(spare)) && Elems(spare') <= Elems(spare)
    ensures OwnSpace(start, b, spare', slot, count)
  {
    hide Walk, Trail, SameWays, SlotPages, SlotFrames, Translates, SameOutside;
    WaysKept(a, b, slot.p4Frame, Elems(spare));
    SelfWays(start.mem, start.kernel);
    TranslatesSame(start.mem, start.mem, start.kernel, a, b, slot.p4Frame, SlotPages(count), SlotFrames(slot));
    AvoidsLess(b, slot.p4Frame, 4, Elems(spare), Elems(spare'));
  }

  /** Whatever became of preparing one more space, the pool so far is in order. */
  lemma PoolKept(start: Start, a: Memory, spare: seq<Frame>, b: Memory, spare': seq<Frame>, slots: seq<P4Slot>,
                 count: nat)
    requires count <= MAX_PRIVATE_PROGRAM_PAGE_COUNT && PoolReady(start, a, spare, slots, count) && spare != []
    requires Contained(Start(a, start.kernel, spare[1..]), b, spare[0], spare')
    ensures PoolReady(start, b, spare', slots, count)
    ensures Elems(spare') <= Elems(spare)
  {
    SpareHead(start, a, spare, slots, count);
    SuffixTrans(start.spare, spare, spare');
    TakenElems(spare, spare');
    TakenElems(spare[1..], spare');
    TakenElems(start.spare, spare);
    SameTrans(a, a, b, {}, {spare[0]} + (Elems(spare[1..]) - Elems(spare')), Elems(spare));
    SameTrans(start.mem, a, b, Elems(start.spare) - Elems(spare), {spare[0]} + (Elems(spare[1..]) - Elems(spare')),
              Elems(start.spare) - Elems(spare'));
    forall k | 0 <= k < |slots| ensures OwnSpace(start, b, spare', slots[k], count) {
      OwnSpaceKept(start, a, spare, b, spare', slots[k], count);
    }
  }

  /** The space just prepared joins the pool. */
  lemma PoolGrows(start: Start, a: Memory, spare: seq<Frame>, b: Memory, spare': seq<Frame>, slots: seq<P4Slot>,
                  slot: P4Slot, count: nat)
    requires count <= MAX_PRIVATE_PROGRAM_PAGE_COUNT && PoolReady(start, a, spare, slots, count) && spare != []
    requires |slots| < PRIVATE_P4_POOL_SIZE
    requires PoolReady(start, b, spare', slots, count) && Elems(spare') <= Elems(spare)
    requires slot.p4Frame == spare[0] && SlotShape(slot, count)
    requires Built(Start(a, start.kernel, spare[1..]), b, spare[0], spare', SlotPages(count), SlotFrames(slot))
    ensures PoolReady(start, b, spare', slots + [slot], count)
  {
    SpareHead(start, a, spare, slots, count);
    KernelKept(start, a, spare, slots, count);
    TakenElems(start.spare, spare);
    NewSpace(start, a, spare, b, spare', slot, count);
    var more := slots + [slot];
    forall k, l | 0 <= k < l < |more| ensures FramesOf(more[k]) !! FramesOf(more[l]) {
      if l == |slots| {
        assert OwnSpace(start, a, spare, slots[k], count);
        assert FramesOf(slot) <= Elems(spare);
      }
    }
  }

  lemma NewSpace(start: Start, a: Memory, spare: seq<Frame>, b: Memory, spare': seq<Frame>, slot: P4Slot, count: nat)
    requires count <= MAX_PRIVATE_PROGRAM_PAGE_COUNT && spare != [] && Elems(spare) <= Elems(start.spare)
    requires Elems(spare') <= Elems(spare) && {spare[0]} + Elems(spare[1..]) == Elems(spare) &&
               spare[0] !in Elems(spare[1..])
    requires slot.p4Frame == spare[0] && SlotShape(slot, count)
    requires Built(Start(a, start.kernel, spare[1..]), b, spare[0], spare', SlotPages(count), SlotFrames(slot))
    requires SameWays(start.mem, a, start.kernel)
    ensures OwnSpace(start, b, spare', slot, count) && FramesOf(slot) <= Elems(spare)
  {
    hide Translates, Walk, Trail, ChildrenAvoid, SlotPages, SlotFrames;
    TakenElems(spare[1..], spare');
    AvoidsLess(b, spare[0], 4, {spare[0]} + Elems(spare'), Elems(spare'));
    assert Avoids(b, spare[0], 4, Elems(spare'));
    var fs := SlotFrames(slot);
    assert SameWays(a, start.mem, start.kernel);
    SelfWays(b, spare[0]);
    TranslatesSame(a, start.mem, start.kernel, b, b, spare[0], SlotPages(count), fs);
    forall k | 0 <= k < |fs| ensures fs[k] != spare[0] { assert fs[k] in Elems(fs); }
  }

  lemma PoolReadyShape(start: Start, mem: Memory, spare: seq<Frame>, slots: seq<P4Slot>, count: nat)
    requires count <= MAX_PRIVATE_PROGRAM_PAGE_COUNT && PoolReady(start, mem, spare, slots, count)
    ensures PoolShape(slots)
    ensures forall k | 0 <= k < |slots| :: !slots[k].inUse && slots[k].stackInUse == ALL_FREE
  {
    forall k | 0 <= k < |slots|
      ensures SlotShape(slots[k], count)
    {
      assert OwnSpace(start, mem, spare, slots[k], count);
    }
    forall k, l | 0 <= k < l < |slots| ensures slots[k].p4Frame != slots[l].p4Frame {
      assert slots[k].p4Frame in FramesOf(slots[k]) && slots[l].p4Frame in FramesOf(slots[l]);
    }
  }

  /**
    What a prepared space does: program page i leads to its program frame i, page i of stack s to its stack
    frame, every other page where it led for the kernel at the start, and still does for the kernel.
   */
  lemma SpaceMeaning(start: Start, mem: Memory, spare: seq<Frame>, slots: seq<P4Slot>, count: nat, k: nat)
    requires count <= MAX_PRIVATE_PROGRAM_PAGE_COUNT && PoolReady(start, mem, spare, slots, count) && k < |slots|
    ensures SlotShape(slots[k], count)
    ensures forall i: nat | i < count ::
              Walk(mem, slots[k].p4Frame, PathOf(ProgramPage(i))) == Mapped(Leaf(slots[k].programFrames[i]))
    ensures forall s: nat, i: nat | s < STACK_SLOTS && i < 4 ::
              Walk(mem, slots[k].p4Frame, PathOf(StackPage(s, i))) == Mapped(Leaf(slots[k].stackFrames[s][i]))
    ensures forall q: seq<Index> | |q| == 4 && Elsewhere(q, SlotPages(count)) ::
              Walk(mem, slots[k].p4Frame, q) == Walk(start.mem, start.kernel, q) == Walk(mem, start.kernel, q)
  {
    hide PoolReady, OwnSpace, Walk, PathOf, SlotPages, Elsewhere, ProgramPage, StackPage;
    var slot := slots[k];
    PoolSpace(start, mem, spare, slots, count, k);
    KernelKept(start, mem, spare, slots, count);
    forall i: nat | i < count
      ensures Walk(mem, slot.p4Frame, PathOf(ProgramPage(i))) == Mapped(Leaf(slot.programFrames[i]))
    {
      ProgramAt(start, mem, spare, slot, count, i);
    }
    forall s: nat, i: nat | s < STACK_SLOTS && i < 4
      ensures Walk(mem, slot.p4Frame, PathOf(StackPage(s, i))) == Mapped(Leaf(slot.stackFrames[s][i]))
    {
      StackAt(start, mem, spare, slot, count, s, i);
    }
    forall q: seq<Index> | |q| == 4 && Elsewhere(q, SlotPages(count))
      ensures Walk(mem, slot.p4Frame, q) == Walk(start.mem, start.kernel, q) == Walk(mem, start.kernel, q)
    {
      OtherAt(start, mem, spare, slot, count, q);
    }
  }

  lemma PoolSpace(start: Start, mem: Memory, spare: seq<Frame>, slots: seq<P4Slot>, count: nat, k: nat)
    requires count <= MAX_PRIVATE_PROGRAM_PAGE_COUNT && PoolReady(start, mem, spare, slots, count) && k < |slots|
    ensures OwnSpace(start, mem, spare, slots[k], count) && SlotShape(slots[k], count)
  {
    assert OwnSpace(start, mem, spare, slots[k], count);
  }

  lemma ProgramAt(start: Start, mem: Memory, spare: seq<Frame>, slot: P4Slot, count: nat, i: nat)
    requires count <= MAX_PRIVATE_PROGRAM_PAGE_COUNT && OwnSpace(start, mem, spare, slot, count) && i < count
    ensures |slot.programFrames| == count
    ensures Walk(mem, slot.p4Frame, PathOf(ProgramPage(i))) == Mapped(Leaf(slot.programFrames[i]))
  {
    hide Walk, PathOf, Elsewhere, Avoids, Elems, Distinct;
    assert SlotPages(count)[i] == ProgramPage(i) && SlotFrames(slot)[i] == slot.programFrames[i];
  }

  lemma StackAt(start: Start, mem: Memory, spare: seq<Frame>, slot: P4Slot, count: nat, s: nat, i: nat)
    requires count <= MAX_PRIVATE_PROGRAM_PAGE_COUNT && OwnSpace(start, mem, spare, slot, count)
    requires s < STACK_SLOTS && i < 4
    ensures |slot.stackFrames| == STACK_SLOTS && |slot.stackFrames[s]| == 4
    ensures Walk(mem, slot.p4Frame, PathOf(StackPage(s, i))) == Mapped(Leaf(slot.stackFrames[s][i]))
  {
    hide Walk, PathOf, Elsewhere, Avoids, Elems, Distinct, Flatten;
    StackPageAt(count, s, i);
    FlattenAt(slot.stackFrames, s, i);
    assert SlotFrames(slot)[count + 4 * s + i] == slot.stackFrames[s][i];
  }

  lemma OtherAt(start: Start, mem: Memory, spare: seq<Frame>, slot: P4Slot, count: nat, q: seq<Index>)
    requires count <= MAX_PRIVATE_PROGRAM_PAGE_COUNT && OwnSpace(start, mem, spare, slot, count)
    requires |q| == 4 && Elsewhere(q, SlotPages(count))
    ensures Walk(mem, slot.p4Frame, q) == Walk(start.mem, start.kernel, q)
  {
    hide Walk, PathOf, Elsewhere, Avoids, Elems, Distinct, SlotPages;
  }

  /**
    What a prepared space lets a program do. Its own pages are present, writable, open to user code and not
    executable; the three entries above are writable, and open to user code just as the kernel's are.
   */
  lemma PageRights(start: Start, mem: Memory, spare: seq<Frame>, slots: seq<P4Slot>, count: nat, k: nat, a: nat)
    requires count <= MAX_PRIVATE_PROGRAM_PAGE_COUNT && PoolReady(start, mem, spare, slots, count) && k < |slots|
    requires a < |SlotPages(count)|
    ensures var target := Walk(mem, slots[k].p4Frame, PathOf(SlotPages(count)[a]));
            && target.Mapped? && target.entry.flags.present && target.entry.flags.writable
            && target.entry.flags.user && target.entry.flags.noExecute
    ensures |Trail(start.mem, start.kernel, PathOf(SlotPages(count)[a]))| == 3
    ensures |Trail(mem, slots[k].p4Frame, PathOf(SlotPages(count)[a]))| == 3
    ensures forall j | 0 <= j < 3 ::
              var upper := Trail(mem, slots[k].p4Frame, PathOf(SlotPages(count)[a]))[j];
              var was := Trail(start.mem, start.kernel, PathOf(SlotPages(count)[a]))[j];
              upper.present && upper.writable && upper.user == was.user && upper.noExecute == was.noExecute
  {
    hide PoolReady, OwnSpace, SlotPages, Walk, Trail, PathOf, Shares;
    var page := SlotPages(count)[a];
    PoolSpace(start, mem, spare, slots, count, k);
    SpaceFrame(start, mem, spare, slots[k], count, a);
    MappedTrail(mem, slots[k].p4Frame, PathOf(page));
    SpaceTrail(start, mem, spare, slots[k], count, PathOf(page));
    forall j | 0 <= j < 3 ensures OnWay(PathOf(page), j, SlotPages(count)) {
      SharesSelf(PathOf(page), j);
    }
    forall j | 0 <= j < 3 ensures Trail(mem, slots[k].p4Frame, PathOf(page))[j].present {
      TrailLeads(mem, slots[k].p4Frame, PathOf(page), j);
    }
  }

  lemma SharesSelf(path: seq<Index>, j: nat)
    requires j < |path|
    ensures Shares(path, path, j)
  {
  }

  /** Above every other page too, entries on the way of a private page become writable, and that is all. */
  lemma SpaceTrail(start: Start, mem: Memory, spare: seq<Frame>, slot: P4Slot, count: nat, q: seq<Index>)
    requires count <= MAX_PRIVATE_PROGRAM_PAGE_COUNT && OwnSpace(start, mem, spare, slot, count) && |q| == 4
    ensures RaisedFor(Trail(start.mem, start.kernel, q), Trail(mem, slot.p4Frame, q), q, SlotPages(count))
  {
    hide Walk, Trail, PathOf, Elsewhere, Avoids, Elems, Distinct, SlotPages, RaisedFor;
  }

  /** No two spaces of the pool lead any of their own pages to the same frame. */
  lemma SpacesApart(start: Start, mem: Memory, spare: seq<Frame>, slots: seq<P4Slot>, count: nat, k: nat, l: nat,
                    a: nat, b: nat)
    requires count <= MAX_PRIVATE_PROGRAM_PAGE_COUNT && PoolReady(start, mem, spare, slots, count) && k < |slots| &&
               l < |slots|
    requires a < |SlotPages(count)| && b < |SlotPages(count)| && (k, a) != (l, b)
    ensures Walk(mem, slots[k].p4Frame, PathOf(SlotPages(count)[a])) !=
            Walk(mem, slots[l].p4Frame, PathOf(SlotPages(count)[b]))
  {
    assert OwnSpace(start, mem, spare, slots[k], count) && OwnSpace(start, mem, spare, slots[l], count);
    assert k != l ==> FramesOf(slots[k]) !! FramesOf(slots[l]);
    hide PoolReady, OwnSpace, FramesOf, Walk, PathOf, SlotFrames, SlotPages;
    SpaceFrame(start, mem, spare, slots[k], count, a);
    SpaceFrame(start, mem, spare, slots[l], count, b);
    if k == l { SpaceFramesDiffer(start, mem, spare, slots[k], count, a, b); }
  }

  lemma SpaceFrame(start: Start, mem: Memory, spare: seq<Frame>, slot: P4Slot, count: nat, a: nat)
    requires count <= MAX_PRIVATE_PROGRAM_PAGE_COUNT && OwnSpace(start, mem, spare, slot, count) &&
               a < |SlotPages(count)|
    ensures |SlotFrames(slot)| == |SlotPages(count)| && SlotFrames(slot)[a] in FramesOf(slot)
    ensures Walk(mem, slot.p4Frame, PathOf(SlotPages(count)[a])) == Mapped(Leaf(SlotFrames(slot)[a]))
  {
    hide Walk, PathOf, SlotFrames, SlotPages, Avoids;
  }

  lemma SpaceFramesDiffer(start: Start, mem: Memory, spare: seq<Frame>, slot: P4Slot, count: nat, a: nat, b: nat)
    requires count <= MAX_PRIVATE_PROGRAM_PAGE_COUNT && OwnSpace(start, mem, spare, slot, count)
    requires a < |SlotFrames(slot)| && b < |SlotFrames(slot)| && a != b
    ensures SlotFrames(slot)[a] != SlotFrames(slot)[b]
  {
    hide Translates, SlotFrames, SlotPages, Avoids, SlotShape, FramesOf, Distinct;
    DistinctTail(slot.p4Frame, SlotFrames(slot), a, b);
  }

  lemma DistinctTail(x: Frame, s: seq<Frame>, a: nat, b: nat)
    requires Distinct([x] + s) && a < |s| && b < |s| && a != b
    ensures s[a] != s[b]
  {
    var all := [x] + s;
    assert all[a + 1] == s[a] && all[b + 1] == s[b];
  }

  lemma PushReady(start: Start, mem: Memory, spare: seq<Frame>, slots: seq<P4Slot>, slot: P4Slot, count: nat)
    requires count <= MAX_PRIVATE_PROGRAM_PAGE_COUNT && PoolReady(start, mem, spare, slots + [slot], count)
    ensures !slot.inUse && slot.stackInUse == ALL_FREE
    ensures forall k | 0 <= k < |slots| :: slots[k].p4Frame != slot.p4Frame
  {
    var more := slots + [slot];
    PoolReadyShape(start, mem, spare, more, count);
    hide PoolReady;
    assert more[|slots|] == slot;
    forall k | 0 <= k < |slots| ensures slots[k].p4Frame != slot.p4Frame { assert more[k] == slots[k]; }
  }

  class Paging {
    var mem: Memory
    const frames: BootInfoFrameAllocator

    constructor (mem: Memory, frames: BootInfoFrameAllocator)
      requires frames.Valid()
      ensures this.mem == mem && this.frames == frames && Valid()
    {
      this.mem := mem;
      this.frames := frames;
    }

    ghost predicate Valid()
      reads this, frames
    {
      frames.Valid()
    }

    ghost function Spare(): seq<Frame>
      reads this, frames
    {
      frames.Spare()
    }

    method CloneChildTable(parent: Frame, index: Index) returns (r: Result<Frame, PagingError>)
      requires Valid() && parent !in Spare()
      modifies this, frames
      ensures Valid()
      ensures var e := Read(old(mem), parent)[index];
              if !LeadsOn(e) then r == Err(PrivateMappingNotFound) && mem == old(mem) && Spare() == old(Spare())
              else if old(Spare()) == [] then r == Err(FrameAllocationFailed) && mem == old(mem) &&
                  Spare() == old(Spare())
              else
                && r == Ok(old(Spare())[0]) && Spare() == old(Spare())[1..] && r.value !in Spare()
                && mem == Linked(old(mem), parent, index, r.value)
    {
      var e := Read(mem, parent)[index];
      if !e.flags.present || e.flags.huge { return Err(PrivateMappingNotFound); }
      var into := frames.AllocateFrame();
      if into.None? { return Err(FrameAllocationFailed); }
      assert old(Spare())[0] == into.value && into.value in old(Spare());
      mem := mem[into.value := Read(mem, e.frame)];
      var flags := Read(mem, parent)[index].flags.(present := true, writable := true);
      mem := mem[parent := Read(mem, parent)[index := Entry(into.value, flags)]];
      return Ok(into.value);
    }

    method MapPrivateUserPage(p4: Frame, page: nat, frame: Frame) returns (error: Option<PagingError>)
      requires Valid() && p4 !in Spare()
      modifies this, frames
      ensures Valid()
      ensures var m := MapAt(old(mem), old(Spare()), p4, PathOf(page), Leaf(frame));
              mem == m.mem && Spare() == old(Spare())[m.used..] && error == m.error
    {
      hide MapAt, Linked, UsableFrames, NoOverlap, Read, LeadsOn;
      ghost var spare, leaf := Spare(), Leaf(frame);
      var path := PathOf(page);
      MapAtStep(mem, spare, p4, path, leaf);
      var p3 := CloneChildTable(p4, path[0]);
      if p3.Err? { return Some(p3.error); }
      assert path[1..][0] == path[1] && path[1..][1..] == path[2..];
      MapAtStep(mem, spare[1..], p3.value, path[1..], leaf);
      var p2 := CloneChildTable(p3.value, path[1]);
      if p2.Err? { return Some(p2.error); }
      assert spare[1..][1..] == spare[2..] && path[2..][0] == path[2] && path[2..][1..] == path[3..];
      MapAtStep(mem, spare[2..], p2.value, path[2..], leaf);
      var p1 := CloneChildTable(p2.value, path[2]);
      if p1.Err? { return Some(p1.error); }
      assert spare[2..][1..] == spare[3..] && path[3..][0] == path[3];
      MapAtLast(mem, spare[3..], p1.value, path[3..], leaf);
      mem := mem[p1.value := Read(mem, p1.value)[path[3] := Entry(frame, USER_DATA_FLAGS)]];
      return None;
    }

    /** Allocate a data frame and map the page to it. */
    method MapFresh(p4: Frame, page: nat, ghost start: Start, ghost pages: seq<nat>, ghost done: seq<Frame>)
      returns (r: Result<Frame, PagingError>)
      requires Valid() && Built(start, mem, p4, Spare(), pages, done) && PagesOk(pages + [page])
      modifies this, frames
      ensures Valid() && Contained(start, mem, p4, Spare())
      ensures r.Ok? ==> Built(start, mem, p4, Spare(), pages + [page], done + [r.value])
      ensures r.Err? ==> Stops(start, pages + [page], |pages|, r.error)
    {
      hide Building, Built, MapAt, Contained, Stops, PagesOk, UsableFrames, NoOverlap;
      ghost var spare := Spare();
      BuiltContained(start, mem, p4, spare, pages, done);
      FreshStep(start, mem, p4, spare, pages, done, page);
      var frame := frames.AllocateFrame();
      if frame.None? { return Err(FrameAllocationFailed); }
      assert spare[1..] == Spare() && spare[0] == frame.value;
      var error := MapPrivateUserPage(p4, page, frame.value);
      if error.Some? { return Err(error.value); }
      return Ok(frame.value);
    }

    method MapStack(p4: Frame, slot: nat, count: nat, ghost start: Start, ghost done: seq<Frame>)
      returns (r: Result<seq<Frame>, PagingError>)
      requires Valid() && slot < STACK_SLOTS && count <= MAX_PRIVATE_PROGRAM_PAGE_COUNT
      requires Built(start, mem, p4, Spare(), SlotPages(count)[..count + 4 * slot], done)
      modifies this, frames
      ensures Valid() && Contained(start, mem, p4, Spare())
      ensures r.Err? ==> Fails(start, SlotPages(count), r.error)
      ensures r.Ok? ==> |r.value| == 4
      ensures r.Ok? ==> Built(start, mem, p4, Spare(), SlotPages(count)[..count + 4 * slot + 4], done + r.value)
    {
      hide Built, Contained, PagesOk, SlotPages, UsableFrames, NoOverlap;
      var stackStart := StackRangeForSlot(slot).0;
      ghost var pages, base := SlotPages(count), count + 4 * slot;
      var got: seq<Frame> := [];
      BuiltContained(start, mem, p4, Spare(), pages[..base], done);
      assert done + got == done;
      for index := 0 to PRIVATE_STACK_PAGE_COUNT
        invariant Valid() && |got| == index && Contained(start, mem, p4, Spare())
        invariant Built(start, mem, p4, Spare(), pages[..base + index], done + got)
      {
        NextPage(count, base + index);
        assert pages[base + index] == stackStart / PAGE + index by { StackPageAt(count, slot, index); }
        var frame := MapFresh(p4, stackStart / PAGE + index, start, pages[..base + index], done + got);
        if frame.Err? {
          PrefixStops(start, pages, base + index, frame.error);
          return Err(frame.error);
        }
        assert done + got + [frame.value] == done + (got + [frame.value]);
        got := got + [frame.value];
      }
      return Ok(got);
    }

    method MapProgram(p4: Frame, count: nat, ghost start: Start) returns (r: Result<seq<Frame>, PagingError>)
      requires Valid() && count <= MAX_PRIVATE_PROGRAM_PAGE_COUNT && Built(start, mem, p4, Spare(), [], [])
      modifies this, frames
      ensures Valid() && Contained(start, mem, p4, Spare())
      ensures r.Err? ==> Fails(start, SlotPages(count), r.error)
      ensures r.Ok? ==> |r.value| == count && Built(start, mem, p4, Spare(), SlotPages(count)[..count], r.value)
    {
      hide Built;
      ghost var pages := SlotPages(count);
      var program: seq<Frame> := [];
      assert pages[..0] == [];
      BuiltContained(start, mem, p4, Spare(), [], []);
      for index := 0 to count
        invariant Valid() && |program| == index && Contained(start, mem, p4, Spare())
        invariant Built(start, mem, p4, Spare(), pages[..index], program)
      {
        NextPage(count, index);
        var frame := MapFresh(p4, FIRST_USER_ENTRY / PAGE + index, start, pages[..index], program);
        if frame.Err? {
          PrefixStops(start, pages, index, frame.error);
          return Err(frame.error);
        }
        program := program + [frame.value];
      }
      return Ok(program);
    }

    method MapStacks(p4: Frame, count: nat, ghost start: Start, ghost program: seq<Frame>)
      returns (r: Result<seq<seq<Frame>>, PagingError>)
      requires Valid() && count <= MAX_PRIVATE_PROGRAM_PAGE_COUNT
      requires Built(start, mem, p4, Spare(), SlotPages(count)[..count], program)
      modifies this, frames
      ensures Valid() && Contained(start, mem, p4, Spare())
      ensures r.Err? ==> Fails(start, SlotPages(count), r.error)
      ensures r.Ok? ==> |r.value| == STACK_SLOTS
      ensures r.Ok? ==> forall k | 0 <= k < STACK_SLOTS :: |r.value[k]| == PRIVATE_STACK_PAGE_COUNT
      ensures r.Ok? ==> Built(start, mem, p4, Spare(), SlotPages(count), program + Flatten(r.value))
    {
      hide Built;
      ghost var pages := SlotPages(count);
      var stacks: seq<seq<Frame>> := [];
      assert program + Flatten(stacks) == program;
      BuiltContained(start, mem, p4, Spare(), pages[..count], program);
      for slot := 0 to STACK_SLOTS
        invariant Valid() && |stacks| == slot && Contained(start, mem, p4, Spare())
        invariant forall k | 0 <= k < slot :: |stacks[k]| == PRIVATE_STACK_PAGE_COUNT
        invariant Built(start, mem, p4, Spare(), pages[..count + 4 * slot], program + Flatten(stacks))
      {
        var got := MapStack(p4, slot, count, start, program + Flatten(stacks));
        if got.Err? { return Err(got.error); }
        FlattenMore(program, stacks, got.value);
        stacks := stacks + [got.value];
      }
      assert pages[..count + 32] == pages;
      return Ok(stacks);
    }

    /** prepare_private_p4_slot: copy the root, map the program pages, then the stacks. */
    method PreparePrivateP4Slot(kernel: Frame, p4: Frame, count: nat) returns (r: Result<P4Slot, PagingError>)
      requires Valid() && count <= MAX_PRIVATE_PROGRAM_PAGE_COUNT
      requires FreshFor(Spare(), p4) && Avoids(mem, kernel, 4, {p4} + Elems(Spare()))
      modifies this, frames
      ensures Valid() && Contained(Start(old(mem), kernel, old(Spare())), mem, p4, Spare())
      ensures r.Ok? <==> |old(Spare())| >= 4 * (count + 32) && AllLead(old(mem), kernel, SlotPages(count))
      ensures r.Ok? ==> |Spare()| == |old(Spare())| - 4 * (count + 32)
      ensures r.Err? ==> Fails(Start(old(mem), kernel, old(Spare())), SlotPages(count), r.error)
      ensures r.Ok? ==> r.value.p4Frame == p4 && SlotShape(r.value, count)
      ensures r.Ok? ==> Built(Start(old(mem), kernel, old(Spare())), mem, p4, Spare(), SlotPages(count),
                SlotFrames(r.value))
    {
      ghost var start := Start(mem, kernel, Spare());
      BuildingStarts(mem, kernel, Spare(), p4);
      hide Avoids, FreshFor, Contained, Building, Fails;
      mem := mem[p4 := Read(mem, kernel)];
      assert Built(start, mem, p4, Spare(), [], []);
      hide Built;
      var program := MapProgram(p4, count, start);
      if program.Err? {
        FailsShort(start, SlotPages(count), program.error);
        return Err(program.error);
      }
      var stacks := MapStacks(p4, count, start, program.value);
      if stacks.Err? {
        FailsShort(start, SlotPages(count), stacks.error);
        return Err(stacks.error);
      }
      BuiltCost(start, mem, p4, Spare(), SlotPages(count), program.value + Flatten(stacks.value));
      return Ok(P4Slot(p4, program.value, stacks.value, ALL_FREE, false));
    }

    /** One round of the pool's preparation; false when frames or mappings give out. */
    method AddSpace(kernel: Frame, count: nat, pool: PrivateP4Pool, ghost start: Start) returns (added: bool)
      requires Valid() && count <= MAX_PRIVATE_PROGRAM_PAGE_COUNT && kernel == start.kernel
      requires |pool.slots| < PRIVATE_P4_POOL_SIZE && PoolReady(start, mem, Spare(), pool.slots, count)
      modifies this, frames, pool
      ensures Valid() && PoolReady(start, mem, Spare(), pool.slots, count)
      ensures |pool.slots| == |old(pool.slots)| + if added then 1 else 0
      ensures added <==> |old(Spare())| >= SpaceCost(count) && AllLead(start.mem, kernel, SlotPages(count))
      ensures added ==> |Spare()| == |old(Spare())| - SpaceCost(count)
    {
      hide PoolReady, Avoids, FreshFor, Elems, Contained, Built, SlotShape, PoolShape, UsableFrames, NoOverlap;
      hide SlotPages, SlotFrames, AllLead, Fails, SameWays;
      ghost var before, spare, slots := mem, Spare(), pool.slots;
      var p4 := frames.AllocateFrame();
      if p4.None? { return false; }
      SpareHead(start, mem, spare, slots, count);
      assert spare[1..] == Spare() && spare[0] == p4.value;
      KernelKept(start, mem, spare, slots, count);
      LeadKept(start.mem, mem, kernel, SlotPages(count));
      var slot := PreparePrivateP4Slot(kernel, p4.value, count);
      PoolKept(start, before, spare, mem, Spare(), slots, count);
      if slot.Err? { return false; }
      PoolGrows(start, before, spare, mem, Spare(), slots, slot.value, count);
      PoolReadyShape(start, mem, Spare(), slots, count);
      PushReady(start, mem, Spare(), slots, slot.value, count);
      added := pool.Push(slot.value);
    }

    /** init_private_p4_pool: prepare spaces until the pool is full or frames run out. */
    method InitPrivateP4Pool(kernel: Frame, count: nat, pool: PrivateP4Pool)
      requires Valid() && count <= MAX_PRIVATE_PROGRAM_PAGE_COUNT && pool.slots == []
      requires Avoids(mem, kernel, 4, Elems(Spare()))
      modifies this, frames, pool
      ensures Valid() && PoolShape(pool.slots)
      ensures PoolReady(Start(old(mem), kernel, old(Spare())), mem, Spare(), pool.slots, count)
      ensures |pool.slots| == if AllLead(old(mem), kernel, SlotPages(count))
                then Min(PRIVATE_P4_POOL_SIZE, |old(Spare())| / SpaceCost(count)) else 0
    {
      ghost var start := Start(mem, kernel, Spare());
      DistinctIff(frames.memoryMap);
      PoolStarts(start, count);
      assert Leaves(|Spare()|, SpaceCost(count), 0, |Spare()|);
      hide PoolReady, Avoids, Elems, PoolShape, UsableFrames, NoOverlap, AllLead, SlotPages, Leaves;
      ghost var leads, cost := AllLead(mem, kernel, SlotPages(count)), SpaceCost(count);
      ghost var left: nat := |Spare()|;
      var going := true;
      while going && |pool.slots| < PRIVATE_P4_POOL_SIZE
        invariant Valid() && PoolReady(start, mem, Spare(), pool.slots, count)
        invariant |pool.slots| <= PRIVATE_P4_POOL_SIZE && (!leads ==> pool.slots == [])
        invariant Leaves(|start.spare|, cost, |pool.slots|, left) && (going ==> left == |Spare()|)
        invariant !going && leads ==> left < cost
        decreases PRIVATE_P4_POOL_SIZE - |pool.slots|, going
      {
        going := AddSpace(kernel, count, pool, start);
        if going {
          LeavesLess(|start.spare|, cost, |pool.slots| - 1, left);
          left := |Spare()|;
        }
      }
      PoolReadyShape(start, mem, Spare(), pool.slots, count);
      if leads { PoolCount(|start.spare|, cost, |pool.slots|, left); }
    }
  }
}
