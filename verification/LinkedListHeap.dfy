/** The linked-list heap: every byte is at any time in one free region, live block or alignment gap. */
module LinkedListHeap {
  import opened Base
  import opened Numbers

  const NODE_SIZE: nat := 16
  const NODE_ALIGN: nat := 8
  const USIZE_MAX: nat := 0xFFFF_FFFF_FFFF_FFFF

  datatype Block = Block(start: nat, size: nat) {
    function End(): nat { start + size }
  }

  datatype Layout = Layout(size: nat, align: nat)

  /** The least multiple of `align` at or above `addr`. */
  function AlignUp(addr: nat, align: nat): (r: nat)
    requires align > 0
    ensures addr <= r < addr + align && r % align == 0
  {
    var r := (addr + align - 1) / align * align;
    MultipleMod((addr + align - 1) / align, align);
    assert (addr + align - 1) == r + (addr + align - 1) % align;
    r
  }

  /** size_align: room for a list node, and every size a multiple of the node's alignment. */
  function SizeAlign(l: Layout): (r: (nat, nat))
    requires IsPow2(l.align)
    ensures r.0 >= l.size && r.0 >= NODE_SIZE && r.0 % NODE_ALIGN == 0
    ensures r.1 >= l.align && r.1 % NODE_ALIGN == 0 && r.1 % l.align == 0
  {
    var align := if l.align < NODE_ALIGN then NODE_ALIGN else l.align;
    assert IsPow2(8) by { assert IsPow2(1) && IsPow2(2) && IsPow2(4); }
    Pow2Divides(8, align);
    Pow2Divides(l.align, align);
    var size := AlignUp(l.size, align);
    ModOfMultiple(size, align, 8);
    (if size < NODE_SIZE then NODE_SIZE else size, align)
  }

  // ----- Blocks and bytes -----

  function Holds(b: Block, addr: nat): nat { if b.start <= addr < b.End() then 1 else 0 }

  /** How many of the blocks contain this address. */
  function Count(s: seq<Block>, addr: nat): nat
  {
    if s == [] then 0 else Holds(s[0], addr) + Count(s[1..], addr)
  }

  function Total(s: seq<Block>): nat
  {
    if s == [] then 0 else s[0].size + Total(s[1..])
  }

  lemma {:induction false} CountConcat(s: seq<Block>, t: seq<Block>, addr: nat)
    ensures Count(s + t, addr) == Count(s, addr) + Count(t, addr)
    ensures Total(s + t) == Total(s) + Total(t)
  {
    if s == [] {
      assert s + t == t;
    } else {
      assert (s + t)[1..] == s[1..] + t;
      CountConcat(s[1..], t, addr);
    }
  }

  function Drop(s: seq<Block>, k: nat): seq<Block>
    requires k < |s|
  {
    s[..k] + s[k + 1..]
  }

  lemma CountDrop(s: seq<Block>, k: nat, addr: nat)
    requires k < |s|
    ensures Count(s, addr) == Count(Drop(s, k), addr) + Holds(s[k], addr)
    ensures Total(s) == Total(Drop(s, k)) + s[k].size
  {
    assert s == s[..k] + ([s[k]] + s[k + 1..]);
    CountConcat(s[..k], [s[k]] + s[k + 1..], addr);
    CountConcat([s[k]], s[k + 1..], addr);
    CountConcat(s[..k], s[k + 1..], addr);
    assert [s[k]][1..] == [];
  }

  lemma {:induction false} CountMember(s: seq<Block>, k: nat, addr: nat)
    requires k < |s|
    ensures Count(s, addr) >= Holds(s[k], addr)
  {
    CountDrop(s, k, addr);
  }

  // ----- Allocation -----

  /** The free list, the live allocations, and the gaps left by alignment. */
  datatype Heap = Heap(free: seq<Block>, live: seq<Block>, lost: seq<Block>)

  /** alloc_from_region: the start of the allocation, if it fits with no unusable rest. */
  function AllocFrom(region: Block, size: nat, align: nat): (r: Option<nat>)
    requires align > 0
    ensures r.Some? ==>
              && region.start <= r.value && r.value % align == 0 && r.value + size <= region.End()
              && (r.value + size == region.End() || r.value + size + NODE_SIZE <= region.End())
  {
    var start := AlignUp(region.start, align);
    if start + size > USIZE_MAX || start + size > region.End() then None
    else if 0 < region.End() - (start + size) < NODE_SIZE then None
    else Some(start)
  }

  /** The first region of the list that fits. */
  function FirstFit(free: seq<Block>, size: nat, align: nat): (k: Option<nat>)
    requires align > 0
    ensures k.Some? ==> k.value < |free| && AllocFrom(free[k.value], size, align).Some?
    ensures k.Some? ==> forall j | 0 <= j < k.value :: AllocFrom(free[j], size, align).None?
    ensures k.None? ==> forall j | 0 <= j < |free| :: AllocFrom(free[j], size, align).None?
  {
    if free == [] then None
    else if AllocFrom(free[0], size, align).Some? then Some(0)
    else
      var rest := FirstFit(free[1..], size, align);
      assert forall j | 0 <= j < |free[1..]| :: free[1..][j] == free[j + 1];
      if rest.None? then None else Some(rest.value + 1)
  }

  /** Free region `k` gives up `size` bytes from `start`; the rest goes to the front of the list, the gap is lost. */
  function Carve(h: Heap, k: nat, start: nat, size: nat): Heap
    requires k < |h.free| && h.free[k].start <= start && start + size <= h.free[k].End()
  {
    var region := h.free[k];
    var excess := region.End() - (start + size);
    Heap(if excess > 0 then [Block(start + size, excess)] + Drop(h.free, k) else Drop(h.free, k),
         h.live + [Block(start, size)],
         if start > region.start then h.lost + [Block(region.start, start - region.start)] else h.lost)
  }

  function Alloc(h: Heap, l: Layout): (r: (Heap, Option<nat>))
    requires IsPow2(l.align)
  {
    var (size, align) := SizeAlign(l);
    match FirstFit(h.free, size, align)
    case None => (h, None)
    case Some(k) =>
      var start := AllocFrom(h.free[k], size, align).value;
      (Carve(h, k, start, size), Some(start))
  }

  /** Deallocation of live block `i`: back to the front of the list. */
  function Dealloc(h: Heap, i: nat): Heap
    requires i < |h.live|
  {
    Heap([h.live[i]] + h.free, Drop(h.live, i), h.lost)
  }

  // ----- What every run keeps -----

  predicate NodeOk(b: Block) { b.start % NODE_ALIGN == 0 && b.size >= NODE_SIZE && b.size % NODE_ALIGN == 0 }

  /** Each byte of the heap is in exactly one block, and no block reaches outside. */
  ghost predicate Tiles(h: Heap, heap: Block)
  {
    forall addr: nat :: Count(h.free, addr) + Count(h.live, addr) + Count(h.lost, addr) == Holds(heap, addr)
  }

  ghost predicate HeapOk(h: Heap, heap: Block)
  {
    && Tiles(h, heap)
    && Total(h.free) + Total(h.live) + Total(h.lost) == heap.size
    && (forall k | 0 <= k < |h.free| :: NodeOk(h.free[k]))
    && (forall k | 0 <= k < |h.live| :: NodeOk(h.live[k]))
  }

  lemma InitOk(heap: Block)
    requires NodeOk(heap)
    ensures HeapOk(Heap([heap], [], []), heap)
  {
    forall addr: nat ensures Count([heap], addr) == Holds(heap, addr) { assert [heap][1..] == []; }
    assert [heap][1..] == [];
  }

  /** Carving moves bytes between the lists but neither loses nor duplicates any. */
  lemma CarveShape(h: Heap, k: nat, start: nat, size: nat, addr: nat)
    requires k < |h.free| && h.free[k].start <= start && start + size <= h.free[k].End()
    ensures var h' := Carve(h, k, start, size);
            && Count(h'.free, addr) + Count(h'.live, addr) + Count(h'.lost, addr) ==
               Count(h.free, addr) + Count(h.live, addr) + Count(h.lost, addr)
            && Total(h'.free) + Total(h'.live) + Total(h'.lost) == Total(h.free) + Total(h.live) + Total(h.lost)
  {
    hide Count, Total, Drop;
    var region := h.free[k];
    var rest, mid := Block(start + size, region.End() - (start + size)), Block(start, size);
    var gap := Block(region.start, start - region.start);
    CountOne(rest, addr);
    CountOne(mid, addr);
    CountOne(gap, addr);
    CountDrop(h.free, k, addr);
    CountConcat([rest], Drop(h.free, k), addr);
    CountConcat(h.live, [mid], addr);
    CountConcat(h.lost, [gap], addr);
  }

  lemma AppendedIn(s: seq<Block>, b: Block)
    ensures b in s + [b]
  {
    assert (s + [b])[|s|] == b;
  }

  lemma CountOne(b: Block, addr: nat)
    ensures Count([b], addr) == Holds(b, addr) && Total([b]) == b.size
  {
    assert [b][1..] == [];
  }

  lemma AllocKeeps(h: Heap, l: Layout, heap: Block)
    requires HeapOk(h, heap) && IsPow2(l.align)
    ensures HeapOk(Alloc(h, l).0, heap)
  {
    var (size, align) := SizeAlign(l);
    var k := FirstFit(h.free, size, align);
    if k.Some? {
      var start := AllocFrom(h.free[k.value], size, align).value;
      var h' := Carve(h, k.value, start, size);
      forall addr: nat ensures Count(h'.free, addr) + Count(h'.live, addr) + Count(h'.lost, addr) == Holds(heap, addr) {
        CarveShape(h, k.value, start, size, addr);
      }
      CarveShape(h, k.value, start, size, 0);
      AllocNodes(h, l);
    }
  }

  /** The two checks of add_free_region cannot fail here: what goes back to the list is aligned and large enough. */
  lemma AllocNodes(h: Heap, l: Layout)
    requires IsPow2(l.align) && Alloc(h, l).1.Some?
    requires forall k | 0 <= k < |h.free| :: NodeOk(h.free[k])
    requires forall k | 0 <= k < |h.live| :: NodeOk(h.live[k])
    ensures forall k | 0 <= k < |Alloc(h, l).0.free| :: NodeOk(Alloc(h, l).0.free[k])
    ensures forall k | 0 <= k < |Alloc(h, l).0.live| :: NodeOk(Alloc(h, l).0.live[k])
  {
    hide FirstFit, AllocFrom, SizeAlign, Carve;
    var (size, align) := SizeAlign(l);
    var k := FirstFit(h.free, size, align).value;
    var region := h.free[k];
    assert NodeOk(region);
    var start := AllocFrom(region, size, align).value;
    ModOfMultiple(start, align, 8);
    CarvedNodes(region, start, size);
    CarveNodes(h, k, start, size);
  }

  lemma CarveNodes(h: Heap, k: nat, start: nat, size: nat)
    requires k < |h.free| && h.free[k].start <= start && start + size <= h.free[k].End()
    requires forall j | 0 <= j < |h.free| :: NodeOk(h.free[j])
    requires forall j | 0 <= j < |h.live| :: NodeOk(h.live[j])
    requires NodeOk(Block(start, size))
    requires start + size < h.free[k].End() ==> NodeOk(Block(start + size, h.free[k].End() - (start + size)))
    ensures forall j | 0 <= j < |Carve(h, k, start, size).free| :: NodeOk(Carve(h, k, start, size).free[j])
    ensures forall j | 0 <= j < |Carve(h, k, start, size).live| :: NodeOk(Carve(h, k, start, size).live[j])
  {
    hide NodeOk;
  }

  lemma CarvedNodes(region: Block, start: nat, size: nat)
    requires NodeOk(region) && start % 8 == 0 && size % 8 == 0 && size >= NODE_SIZE && start + size <= region.End()
    requires start + size == region.End() || start + size + NODE_SIZE <= region.End()
    ensures NodeOk(Block(start, size))
    ensures start + size < region.End() ==> NodeOk(Block(start + size, region.End() - (start + size)))
  {
  }

  lemma DeallocKeeps(h: Heap, i: nat, heap: Block)
    requires HeapOk(h, heap) && i < |h.live|
    ensures HeapOk(Dealloc(h, i), heap)
  {
    var h' := Dealloc(h, i);
    forall addr: nat
      ensures Count(h'.free, addr) == Count(h.free, addr) + Holds(h.live[i], addr)
      ensures Count(h.live, addr) == Count(h'.live, addr) + Holds(h.live[i], addr)
      ensures Total(h'.free) == Total(h.free) + h.live[i].size && Total(h.live) == Total(h'.live) + h.live[i].size
    {
      CountDrop(h.live, i, addr);
      CountConcat([h.live[i]], h.free, addr);
      assert [h.live[i]][1..] == [];
    }
    assert Total(h'.free) == Total(h.free) + h.live[i].size && Total(h.live) == Total(h'.live) + h.live[i].size by {
      CountDrop(h.live, i, 0);
      CountConcat([h.live[i]], h.free, 0);
      assert [h.live[i]][1..] == [];
    }
  }

  datatype HeapOp = DoAlloc(layout: Layout) | DoDealloc(index: nat)

  /** A caller gives valid layouts and gives back blocks it holds. */
  predicate OpAllowed(h: Heap, op: HeapOp)
  {
    match op
    case DoAlloc(l) => IsPow2(l.align)
    case DoDealloc(i) => i < |h.live|
  }

  function DoOp(h: Heap, op: HeapOp): Heap
    requires OpAllowed(h, op)
  {
    match op
    case DoAlloc(l) => Alloc(h, l).0
    case DoDealloc(i) => Dealloc(h, i)
  }

  ghost predicate HeapRun(states: seq<Heap>, ops: seq<HeapOp>)
  {
    && |states| == |ops| + 1
    && forall k | 0 <= k < |ops| :: OpAllowed(states[k], ops[k]) && states[k + 1] == DoOp(states[k], ops[k])
  }

  lemma {:induction false} RunKeepsHeap(states: seq<Heap>, ops: seq<HeapOp>, heap: Block, k: nat)
    requires HeapRun(states, ops) && NodeOk(heap) && states[0] == Heap([heap], [], []) && k < |states|
    ensures HeapOk(states[k], heap)
  {
    if k == 0 {
      InitOk(heap);
    } else {
      RunKeepsHeap(states, ops, heap, k - 1);
      match ops[k - 1]
      case DoAlloc(l) => AllocKeeps(states[k - 1], l, heap);
      case DoDealloc(i) => DeallocKeeps(states[k - 1], i, heap);
    }
  }

  ghost predicate Apart(a: Block, b: Block) { a.End() <= b.start || b.End() <= a.start }

  lemma CountTwo(s: seq<Block>, i: nat, j: nat, addr: nat)
    requires i < j < |s|
    ensures Count(s, addr) >= Holds(s[i], addr) + Holds(s[j], addr)
  {
    CountDrop(s, j, addr);
    assert Drop(s, j)[i] == s[i];
    CountMember(Drop(s, j), i, addr);
  }

  /** Live allocations never overlap each other nor a free region, and all lie inside the heap. */
  lemma LiveApart(h: Heap, heap: Block, i: nat, j: nat)
    requires HeapOk(h, heap) && i < |h.live|
    ensures heap.start <= h.live[i].start && h.live[i].End() <= heap.End()
    ensures i < j < |h.live| ==> Apart(h.live[i], h.live[j])
    ensures j < |h.free| ==> Apart(h.live[i], h.free[j])
  {
    var b := h.live[i];
    assert NodeOk(b);
    CountMember(h.live, i, b.start);
    CountMember(h.live, i, b.End() - 1);
    if i < j < |h.live| {
      assert NodeOk(h.live[j]);
      CountTwo(h.live, i, j, b.start);
      CountTwo(h.live, i, j, h.live[j].start);
    }
    if j < |h.free| {
      assert NodeOk(h.free[j]);
      CountMember(h.free, j, b.start);
      CountMember(h.free, j, h.free[j].start);
      CountMember(h.live, i, h.free[j].start);
    }
  }

  /** An allocation fails exactly when no free region fits, and then changes nothing. */
  lemma AllocFailsIff(h: Heap, l: Layout)
    requires IsPow2(l.align)
    ensures Alloc(h, l).1.None? <==>
              forall j | 0 <= j < |h.free| :: AllocFrom(h.free[j], SizeAlign(l).0, SizeAlign(l).1).None?
    ensures Alloc(h, l).1.None? ==> Alloc(h, l).0 == h
  {
  }

  predicate IsMultiple(a: nat, align: nat)
    requires align > 0
  {
    a % align == 0
  }

  /** Two multiples less than `align` apart are the same. */
  lemma NearMultiples(a: nat, b: nat, align: nat)
    requires align > 0 && IsMultiple(a, align) && IsMultiple(b, align) && a <= b < a + align
    ensures a == b
  {
    DivUnique(b, a / align, b - a, align);
  }

  /**
    A region serves a request exactly when the request, put at the first multiple of the alignment in the
    region, ends within the address range and leaves either nothing or room for a list node.
   */
  lemma FitsIff(region: Block, size: nat, align: nat, a: nat)
    requires align > 0 && region.start <= a && IsMultiple(a, align)
    requires forall b | region.start <= b < a :: !IsMultiple(b, align)
    ensures var end := a + size;
            AllocFrom(region, size, align) ==
            if end <= USIZE_MAX && (end == region.End() || end + NODE_SIZE <= region.End()) then Some(a) else None
  {
    var start := AlignUp(region.start, align);
    assert IsMultiple(start, align);
    NearMultiples(a, start, align);
  }

  /** The adjusted size is the least that holds a node and the request, and is a multiple of the alignment if larger. */
  lemma SizeAlignLeast(l: Layout, n: nat)
    requires IsPow2(l.align)
    ensures SizeAlign(l).1 == if l.align < NODE_ALIGN then NODE_ALIGN else l.align
    ensures SizeAlign(l).0 == NODE_SIZE || IsMultiple(SizeAlign(l).0, SizeAlign(l).1)
    ensures l.size <= n && NODE_SIZE <= n && IsMultiple(n, SizeAlign(l).1) ==> SizeAlign(l).0 <= n
  {
    var align := SizeAlign(l).1;
    var size := AlignUp(l.size, align);
    if l.size <= n < size && IsMultiple(n, align) { NearMultiples(n, size, align); }
  }

  /** What an allocation returns is a live block of the adjusted size, at a multiple of the adjusted alignment. */
  lemma AllocGives(h: Heap, l: Layout)
    requires IsPow2(l.align) && Alloc(h, l).1.Some?
    ensures var b := Block(Alloc(h, l).1.value, SizeAlign(l).0);
            && Alloc(h, l).0.live == h.live + [b]
            && IsMultiple(b.start, SizeAlign(l).1) && b.End() <= USIZE_MAX
  {
  }

  /** A block freed is the next one handed out for its layout, and the heap is then as before. */
  lemma FreeThenAlloc(before: Heap, l: Layout, h: Heap, i: nat)
    requires IsPow2(l.align) && Alloc(before, l).1.Some? && i < |h.live|
    requires h.live[i] == Block(Alloc(before, l).1.value, SizeAlign(l).0)
    ensures var (h', got) := Alloc(Dealloc(h, i), l);
            && got == Some(h.live[i].start)
            && h' == Heap(h.free, Drop(h.live, i) + [h.live[i]], h.lost)
  {
    hide SizeAlign;
    AllocGives(before, l);
    var (size, align) := SizeAlign(l);
    var b := h.live[i];
    AlignedStays(b.start, align);
    hide IsPow2, AlignUp, IsMultiple;
    var freed := Dealloc(h, i);
    assert AllocFrom(b, size, align) == Some(b.start);
    assert freed.free[0] == b && Drop(freed.free, 0) == h.free;
    FirstIsFirst(freed.free, size, align);
  }

  /** Where an allocation leaves a rest, the next one with the same layout comes from just behind it. */
  lemma NextBehind(h: Heap, l: Layout, k: nat)
    requires IsPow2(l.align) && FirstFit(h.free, SizeAlign(l).0, SizeAlign(l).1) == Some(k) && k < |h.free|
    requires Alloc(h, l).1.Some?
    requires var size, next, end := SizeAlign(l).0, Alloc(h, l).1.value + SizeAlign(l).0, h.free[k].End();
             && IsMultiple(next, SizeAlign(l).1) && next + size <= USIZE_MAX
             && (next + size == end || next + size + NODE_SIZE <= end)
    ensures Alloc(Alloc(h, l).0, l).1 == Some(Alloc(h, l).1.value + SizeAlign(l).0)
  {
    hide SizeAlign, IsPow2, FirstFit;
    var (size, align) := SizeAlign(l);
    var start := AllocFrom(h.free[k], size, align).value;
    var rest := Block(start + size, h.free[k].End() - (start + size));
    assert Alloc(h, l).0.free[0] == rest;
    AlignedStays(rest.start, align);
    hide AlignUp;
    FirstIsFirst(Alloc(h, l).0.free, size, align);
  }

  lemma FirstIsFirst(free: seq<Block>, size: nat, align: nat)
    requires align > 0 && free != [] && AllocFrom(free[0], size, align).Some?
    ensures FirstFit(free, size, align) == Some(0)
  {
  }

  /** Bytes are lost exactly when the chosen region does not start at a multiple of the alignment. */
  lemma LossIff(h: Heap, l: Layout)
    requires IsPow2(l.align) && Alloc(h, l).1.Some?
    ensures var (size, align) := SizeAlign(l);
            var region := h.free[FirstFit(h.free, size, align).value];
            Total(Alloc(h, l).0.lost) == Total(h.lost) <==> region.start % align == 0
  {
    var (size, align) := SizeAlign(l);
    var region := h.free[FirstFit(h.free, size, align).value];
    var start := AllocFrom(region, size, align).value;
    CountConcat(h.lost, [Block(region.start, start - region.start)], 0);
    assert [Block(region.start, start - region.start)][1..] == [];
    AlignedStays(region.start, align);
  }

  const KERNEL_HEAP := Block(0x4444_4444_0000, 0x10_0000)

  /** The case: on the kernel's heap sixteen bytes are taken first, and then 64 bytes at a multiple of 64. */
  lemma LossExample()
    ensures IsPow2(8) && IsPow2(64)
    ensures var h := Alloc(Alloc(Heap([KERNEL_HEAP], [], []), Layout(16, 8)).0, Layout(64, 64)).0;
            h.lost == [Block(KERNEL_HEAP.start + 16, 48)]
  {
    var heap := KERNEL_HEAP;
    assert IsPow2(1) && IsPow2(2) && IsPow2(4) && IsPow2(8) && IsPow2(16) && IsPow2(32) && IsPow2(64);
    hide IsPow2;
    var h0 := Heap([heap], [], []);
    assert SizeAlign(Layout(16, 8)) == (16, 8) && SizeAlign(Layout(64, 64)) == (64, 64);
    hide SizeAlign;
    assert AllocFrom(heap, 16, 8) == Some(heap.start);
    var h1 := Alloc(h0, Layout(16, 8)).0;
    var rest := Block(heap.start + 16, heap.size - 16);
    assert h1.free == [rest] && h1.lost == [];
    assert AllocFrom(rest, 64, 64) == Some(heap.start + 64);
  }

  lemma AlignedStays(addr: nat, align: nat)
    requires align > 0
    ensures AlignUp(addr, align) == addr <==> addr % align == 0
  {
    if addr % align == 0 {
      assert addr == addr / align * align;
      DivUnique(addr + align - 1, addr / align, align - 1, align);
    }
  }

  /** What the code relies on while it allocates. */
  lemma AllocParts(h: Heap, l: Layout, heap: Block)
    requires HeapOk(h, heap) && IsPow2(l.align)
    ensures HeapOk(Alloc(h, l).0, heap)
    ensures var (size, align) := SizeAlign(l);
            var k := FirstFit(h.free, size, align);
            if k.None? then Alloc(h, l) == (h, None)
            else
              var region, start := h.free[k.value], AllocFrom(h.free[k.value], size, align).value;
              && Alloc(h, l) == (Carve(h, k.value, start, size), Some(start))
              && start % l.align == 0 && region.start <= start && start + size <= region.End()
              && (start + size < region.End() ==>
                    (start + size) % NODE_ALIGN == 0 && region.End() - (start + size) >= NODE_SIZE)
  {
    AllocKeeps(h, l, heap);
    var (size, align) := SizeAlign(l);
    var k := FirstFit(h.free, size, align);
    if k.Some? {
      var region := h.free[k.value];
      var start := AllocFrom(region, size, align).value;
      ModOfMultiple(start, align, l.align);
      ModOfMultiple(start, align, 8);
      assert NodeOk(region);
      hide HeapOk, FirstFit, AllocFrom, SizeAlign;
      CarvedNodes(region, start, size);
    }
  }

  /** The allocator itself: a list of free regions, and, for the proof only, who holds the rest. */
  class LinkedListAllocator {
    var free: seq<Block>
    ghost var live: seq<Block>
    ghost var lost: seq<Block>
    ghost const heap: Block

    ghost function View(): Heap
      reads this
    {
      Heap(free, live, lost)
    }

    ghost predicate Valid()
      reads this
    {
      HeapOk(View(), heap)
    }

    constructor (start: nat, size: nat)
      requires NodeOk(Block(start, size))
      ensures Valid() && heap == Block(start, size) && View() == Heap([Block(start, size)], [], [])
    {
      heap := Block(start, size);
      live, lost := [], [];
      free := [Block(start, size)];
      new;
      InitOk(heap);
    }

    /** add_free_region: both of its checks hold whenever it is called. */
    method AddFreeRegion(addr: nat, size: nat)
      requires addr % NODE_ALIGN == 0 && size >= NODE_SIZE
      modifies this`free
      ensures free == [Block(addr, size)] + old(free)
    {
      AlignedStays(addr, NODE_ALIGN);
      assert AlignUp(addr, NODE_ALIGN) == addr;
      free := [Block(addr, size)] + free;
    }

    /** find_region: unlink the first region that fits. */
    method FindRegion(size: nat, align: nat) returns (r: Option<(Block, nat)>)
      requires align > 0
      modifies this`free
      ensures var k := FirstFit(old(free), size, align);
              if k.None? then r == None && free == old(free)
              else
                && r == Some((old(free)[k.value], AllocFrom(old(free)[k.value], size, align).value))
                && free == Drop(old(free), k.value)
    {
      for k := 0 to |free|
        invariant free == old(free)
        invariant forall j | 0 <= j < k :: AllocFrom(free[j], size, align).None?
      {
        var start := AllocFrom(free[k], size, align);
        if start.Some? {
          var region := free[k];
          free := free[..k] + free[k + 1..];
          return Some((region, start.value));
        }
      }
      return None;
    }

    method Allocate(l: Layout) returns (r: Option<nat>)
      requires Valid() && IsPow2(l.align)
      modifies this
      ensures Valid() && (View(), r) == Alloc(old(View()), l)
      ensures r.Some? ==> r.value % l.align == 0 && exists b :: b in live && b.start == r.value && b.size >= l.size
    {
      hide HeapOk, FirstFit, AllocFrom, SizeAlign, Alloc, AlignUp, Carve, Drop;
      AllocParts(View(), l, heap);
      var (size, align) := SizeAlign(l);
      var found := FindRegion(size, align);
      if found.None? { return None; }
      var (region, start) := found.value;
      Commit(region, start, size, old(View()), FirstFit(old(free), size, align).value);
      return Some(start);
    }

    /** The unlinked region is split: the allocation, what is left behind it, and the gap before it. */
    method Commit(region: Block, start: nat, size: nat, ghost h: Heap, ghost k: nat)
      requires k < |h.free| && region == h.free[k] && View() == h.(free := Drop(h.free, k))
      requires region.start <= start && start + size <= region.End()
      requires start + size < region.End() ==>
                 (start + size) % NODE_ALIGN == 0 && region.End() - (start + size) >= NODE_SIZE
      modifies this
      ensures View() == Carve(h, k, start, size) && Block(start, size) in live
    {
      hide Drop;
      var excess := region.End() - (start + size);
      if excess > 0 { AddFreeRegion(start + size, excess); }
      AppendedIn(live, Block(start, size));
      live := live + [Block(start, size)];
      if start > region.start { lost := lost + [Block(region.start, start - region.start)]; }
    }

    /** The caller returns block `i` of those it holds, with the layout it asked for. */
    method Deallocate(addr: nat, l: Layout, ghost i: nat)
      requires Valid() && IsPow2(l.align) && i < |live| && live[i] == Block(addr, SizeAlign(l).0)
      modifies this
      ensures Valid() && View() == Dealloc(old(View()), i)
    {
      DeallocKeeps(View(), i, heap);
      assert NodeOk(live[i]);
      var (size, _) := SizeAlign(l);
      AddFreeRegion(addr, size);
      live := Drop(live, i);
    }
  }
}
