/** The fixed-size block allocator: whatever the general heap below it does, blocks in use or listed never overlap. */
module BlockHeap {
  import opened Base
  import opened Numbers
  import opened LinkedListHeap

  const BLOCK_SIZES: seq<nat> := [8, 16, 32, 64, 128, 256, 512, 1024, 2048]
  const CLASSES: nat := 9

  /** The first class whose blocks are at least `need` bytes. */
  function ClassFor(need: nat, from: nat := 0): (i: Option<nat>)
    requires from <= CLASSES
    ensures i.Some? ==> from <= i.value < CLASSES && need <= BLOCK_SIZES[i.value]
    ensures i.Some? ==> forall j | from <= j < i.value :: BLOCK_SIZES[j] < need
    ensures i.None? ==> forall j | from <= j < CLASSES :: BLOCK_SIZES[j] < need
    decreases CLASSES - from
  {
    if from == CLASSES then None else if BLOCK_SIZES[from] >= need then Some(from) else ClassFor(need, from + 1)
  }

  function ListIndex(l: Layout): Option<nat> { ClassFor(if l.size < l.align then l.align else l.size) }

  /** The block a layout is served with, at an address. */
  function Served(addr: nat, l: Layout): Block
  {
    match ListIndex(l)
    case Some(i) => Block(addr, BLOCK_SIZES[i])
    case None => Block(addr, l.size)
  }

  datatype Allocation = Allocation(addr: nat, layout: Layout)

  /** One free list per class, newest first, and the allocations not yet returned. */
  datatype Blocks = Blocks(lists: seq<seq<nat>>, live: seq<Allocation>)

  /** What is asked of the general heap when a list is empty or no class fits. */
  function FallbackLayout(l: Layout): Layout
  {
    match ListIndex(l)
    case Some(i) => Layout(BLOCK_SIZES[i], BLOCK_SIZES[i])
    case None => l
  }

  predicate NeedsFallback(b: Blocks, l: Layout)
    requires |b.lists| == CLASSES
  {
    ListIndex(l).None? || b.lists[ListIndex(l).value] == []
  }

  /** `fallback` is the general heap's answer, if it is asked. */
  function TakeBlock(b: Blocks, l: Layout, fallback: Option<nat>): (r: (Blocks, Option<nat>))
    requires |b.lists| == CLASSES
  {
    if NeedsFallback(b, l) then
      (if fallback.Some? then b.(live := b.live + [Allocation(fallback.value, l)]) else b, fallback)
    else
      var i := ListIndex(l).value;
      var addr := b.lists[i][0];
      (Blocks(b.lists[i := b.lists[i][1..]], b.live + [Allocation(addr, l)]), Some(addr))
  }

  /** Return live allocation `k`; a block of a class goes to its list, anything else back to the general heap. */
  function ReturnBlock(b: Blocks, k: nat): Blocks
    requires |b.lists| == CLASSES && k < |b.live|
  {
    var a := b.live[k];
    var live := b.live[..k] + b.live[k + 1..];
    match ListIndex(a.layout)
    case Some(i) => Blocks(b.lists[i := [a.addr] + b.lists[i]], live)
    case None => b.(live := live)
  }

  // ----- Addresses -----

  function CountList(addrs: seq<nat>, size: nat, addr: nat): nat
  {
    if addrs == [] then 0 else Holds(Block(addrs[0], size), addr) + CountList(addrs[1..], size, addr)
  }

  function CountLists(lists: seq<seq<nat>>, addr: nat, from: nat := 0): nat
    requires |lists| == CLASSES && from <= CLASSES
    decreases CLASSES - from
  {
    if from == CLASSES then 0 else CountList(lists[from], BLOCK_SIZES[from], addr) + CountLists(lists, addr, from + 1)
  }

  function CountLive(live: seq<Allocation>, addr: nat): nat
  {
    if live == [] then 0
    else CountLive(live[..|live| - 1], addr) + Holds(Served(live[|live| - 1].addr, live[|live| - 1].layout), addr)
  }

  lemma {:induction false} ListChange(lists: seq<seq<nat>>, i: nat, list: seq<nat>, addr: nat, from: nat)
    requires |lists| == CLASSES && i < CLASSES && from <= CLASSES
    ensures from <= i ==> CountLists(lists[i := list], addr, from) + CountList(lists[i], BLOCK_SIZES[i], addr) ==
                          CountLists(lists, addr, from) + CountList(list, BLOCK_SIZES[i], addr)
    ensures from > i ==> CountLists(lists[i := list], addr, from) == CountLists(lists, addr, from)
    decreases CLASSES - from
  {
    if from < CLASSES { ListChange(lists, i, list, addr, from + 1); }
  }

  lemma {:induction false} LiveDrop(live: seq<Allocation>, k: nat, addr: nat)
    requires k < |live|
    ensures CountLive(live, addr) ==
              CountLive(live[..k] + live[k + 1..], addr) + Holds(Served(live[k].addr, live[k].layout), addr)
  {
    hide Served, Holds;
    var front := live[..|live| - 1];
    if k == |live| - 1 {
      assert live[..k] + live[k + 1..] == front;
    } else {
      LiveDrop(front, k, addr);
      var rest := live[..k] + live[k + 1..];
      assert rest[..|rest| - 1] == front[..k] + front[k + 1..];
    }
  }

  // ----- What every run keeps -----

  /** No byte belongs to two blocks, none lies outside the heap; blocks of a class lie at multiples of its size. */
  ghost predicate BlocksOk(b: Blocks, heap: Block)
  {
    && |b.lists| == CLASSES
    && (forall addr: nat :: CountLists(b.lists, addr) + CountLive(b.live, addr) <= Holds(heap, addr))
    && (forall i, j | 0 <= i < CLASSES && 0 <= j < |b.lists[i]| :: b.lists[i][j] % BLOCK_SIZES[i] == 0)
    && (forall k | 0 <= k < |b.live| :: LiveOk(b.live[k]))
  }

  predicate LiveOk(a: Allocation)
  {
    && IsPow2(a.layout.align) && a.addr % a.layout.align == 0
    && (ListIndex(a.layout).Some? ==> a.addr % BLOCK_SIZES[ListIndex(a.layout).value] == 0)
  }

  /**
    The contract of the general heap: it answers with a block that is aligned, inside the heap, and apart from
    every block it has handed out and not taken back.
   */
  ghost predicate FallbackOk(b: Blocks, heap: Block, l: Layout, fallback: Option<nat>)
    requires |b.lists| == CLASSES
  {
    fallback.Some? ==>
      var ask := FallbackLayout(l);
      && ask.align > 0 && fallback.value % ask.align == 0
      && forall addr: nat ::
           CountLists(b.lists, addr) + CountLive(b.live, addr) + Holds(Block(fallback.value, ask.size), addr) <=
           Holds(heap, addr)
  }

  lemma SizesPow2(i: nat)
    requires i < CLASSES
    ensures IsPow2(BLOCK_SIZES[i])
  {
    assert IsPow2(1) && IsPow2(2) && IsPow2(4) && IsPow2(8) && IsPow2(16) && IsPow2(32);
    assert IsPow2(64) && IsPow2(128) && IsPow2(256) && IsPow2(512) && IsPow2(1024) && IsPow2(2048);
  }

  /** Blocks of a layout's class are aligned for it, and large enough. */
  lemma ClassFits(l: Layout, addr: nat)
    requires IsPow2(l.align) && ListIndex(l).Some? && addr % BLOCK_SIZES[ListIndex(l).value] == 0
    ensures addr % l.align == 0 && l.size <= BLOCK_SIZES[ListIndex(l).value]
  {
    var size := BLOCK_SIZES[ListIndex(l).value];
    SizesPow2(ListIndex(l).value);
    Pow2Divides(l.align, size);
    ModOfMultiple(addr, size, l.align);
  }

  /** Every allocation is aligned and large enough, whether from a list or from the general heap. */
  lemma TakeServes(b: Blocks, l: Layout, fallback: Option<nat>, heap: Block)
    requires BlocksOk(b, heap) && IsPow2(l.align) && FallbackOk(b, heap, l, fallback) &&
               TakeBlock(b, l, fallback).1.Some?
    ensures var addr := TakeBlock(b, l, fallback).1.value;
            LiveOk(Allocation(addr, l)) && Served(addr, l).size >= l.size
  {
    if ListIndex(l).Some? { ClassFits(l, TakeBlock(b, l, fallback).1.value); }
  }

  lemma TakeKeeps(b: Blocks, l: Layout, fallback: Option<nat>, heap: Block)
    requires BlocksOk(b, heap) && IsPow2(l.align) && FallbackOk(b, heap, l, fallback)
    ensures BlocksOk(TakeBlock(b, l, fallback).0, heap)
  {
    var (b', got) := TakeBlock(b, l, fallback);
    if got.Some? {
      TakeServes(b, l, fallback, heap);
      assert b'.live[..|b'.live| - 1] == b.live;
      assert forall k | 0 <= k < |b'.live| :: LiveOk(b'.live[k]);
      forall addr: nat ensures CountLists(b'.lists, addr) + CountLive(b'.live, addr) <= Holds(heap, addr) {
        if !NeedsFallback(b, l) {
          var i := ListIndex(l).value;
          ListChange(b.lists, i, b.lists[i][1..], addr, 0);
        }
      }
    }
  }

  lemma ReturnKeeps(b: Blocks, k: nat, heap: Block)
    requires BlocksOk(b, heap) && k < |b.live|
    ensures BlocksOk(ReturnBlock(b, k), heap)
  {
    var b' := ReturnBlock(b, k);
    var a := b.live[k];
    assert LiveOk(a);
    assert forall j | 0 <= j < |b'.live| :: LiveOk(b'.live[j]);
    forall addr: nat ensures CountLists(b'.lists, addr) + CountLive(b'.live, addr) <= Holds(heap, addr) {
      LiveDrop(b.live, k, addr);
      if ListIndex(a.layout).Some? {
        var i := ListIndex(a.layout).value;
        ListChange(b.lists, i, [a.addr] + b.lists[i], addr, 0);
        assert ([a.addr] + b.lists[i])[1..] == b.lists[i];
      }
    }
  }

  /** The smallest class whose blocks hold `need` bytes. */
  predicate Smallest(c: nat, need: nat)
    requires c < CLASSES
  {
    need <= BLOCK_SIZES[c] && forall j | 0 <= j < c :: BLOCK_SIZES[j] < need
  }

  /** A request fails exactly when no block of its class is listed, or it has no class, and the heap below refuses. */
  lemma TakeFailsIff(b: Blocks, l: Layout, fallback: Option<nat>)
    requires |b.lists| == CLASSES
    ensures TakeBlock(b, l, fallback).1.None? <==>
              && fallback.None?
              && forall c: nat | c < CLASSES && Smallest(c, if l.size < l.align then l.align else l.size) ::
                   b.lists[c] == []
    ensures TakeBlock(b, l, fallback).1.None? ==> TakeBlock(b, l, fallback).0 == b
  {
    var need := if l.size < l.align then l.align else l.size;
    var i := ClassFor(need);
    if i.Some? { assert Smallest(i.value, need); }
    forall c: nat | c < CLASSES && Smallest(c, need) ensures i == Some(c) {}
  }

  /** What is asked of the general heap is exactly the block the request is served with, aligned as asked for. */
  lemma AskedIsServed(l: Layout, addr: nat)
    ensures FallbackLayout(l).size == Served(addr, l).size && FallbackLayout(l).align >= l.align
    ensures ListIndex(l).Some? ==> FallbackLayout(l).align == FallbackLayout(l).size
    ensures ListIndex(l).None? ==> FallbackLayout(l) == l
  {
  }

  /** An allocation adds one live block, with its layout, and a deallocation takes that one away. */
  lemma LiveChanges(b: Blocks, l: Layout, fallback: Option<nat>, k: nat)
    requires |b.lists| == CLASSES && k < |b.live|
    ensures var (b', got) := TakeBlock(b, l, fallback);
            multiset(b'.live) ==
            multiset(b.live) + if got.Some? then multiset{Allocation(got.value, l)} else multiset{}
    ensures multiset(ReturnBlock(b, k).live) + multiset{b.live[k]} == multiset(b.live)
  {
    var front, back := b.live[..k], b.live[k + 1..];
    assert b.live == front + [b.live[k]] + back;
    assert multiset(b.live) == multiset(front) + multiset{b.live[k]} + multiset(back);
    assert multiset(front + back) == multiset(front) + multiset(back);
  }

  /** A block freed is the next one handed out for its class, and the lists are then as before. */
  lemma ReturnThenTake(b: Blocks, k: nat, l: Layout, fallback: Option<nat>)
    requires |b.lists| == CLASSES && k < |b.live| && ListIndex(l).Some? && ListIndex(l) == ListIndex(b.live[k].layout)
    ensures var (b', got) := TakeBlock(ReturnBlock(b, k), l, fallback);
            got == Some(b.live[k].addr) && b'.lists == b.lists
  {
    var i := ListIndex(l).value;
    assert ([b.live[k].addr] + b.lists[i])[1..] == b.lists[i];
  }

  datatype BlockOp = AskBlock(layout: Layout, fallback: Option<nat>) | GiveBlock(index: nat)

  ghost predicate BlockOpAllowed(b: Blocks, heap: Block, op: BlockOp)
    requires |b.lists| == CLASSES
  {
    match op
    case AskBlock(l, fallback) => IsPow2(l.align) && FallbackOk(b, heap, l, fallback)
    case GiveBlock(k) => k < |b.live|
  }

  function BlockStep(b: Blocks, op: BlockOp): Blocks
    requires |b.lists| == CLASSES && (op.GiveBlock? ==> op.index < |b.live|)
  {
    match op
    case AskBlock(l, fallback) => TakeBlock(b, l, fallback).0
    case GiveBlock(k) => ReturnBlock(b, k)
  }

  ghost predicate BlockRun(states: seq<Blocks>, ops: seq<BlockOp>, heap: Block)
  {
    && |states| == |ops| + 1
    && (forall k | 0 <= k < |states| :: |states[k].lists| == CLASSES)
    && (forall k | 0 <= k < |ops| ::
          BlockOpAllowed(states[k], heap, ops[k]) && states[k + 1] == BlockStep(states[k], ops[k]))
  }

  const EMPTY_LISTS: seq<seq<nat>> := [[], [], [], [], [], [], [], [], []]

  lemma {:induction false} EmptyCount(addr: nat, from: nat)
    requires from <= CLASSES
    ensures CountLists(EMPTY_LISTS, addr, from) == 0
    decreases CLASSES - from
  {
    if from < CLASSES { EmptyCount(addr, from + 1); }
  }

  /** In every state of every run from an empty allocator no byte is owned twice. */
  lemma {:induction false} RunKeepsBlocks(states: seq<Blocks>, ops: seq<BlockOp>, heap: Block, k: nat)
    requires BlockRun(states, ops, heap) && states[0] == Blocks(EMPTY_LISTS, []) && k < |states|
    ensures BlocksOk(states[k], heap)
  {
    if k == 0 {
      forall addr: nat ensures CountLists(EMPTY_LISTS, addr) == 0 { EmptyCount(addr, 0); }
    } else {
      RunKeepsBlocks(states, ops, heap, k - 1);
      match ops[k - 1]
      case AskBlock(l, fallback) => TakeKeeps(states[k - 1], l, fallback, heap);
      case GiveBlock(i) => ReturnKeeps(states[k - 1], i, heap);
    }
  }

  lemma {:induction false} LiveCounted(live: seq<Allocation>, k: nat, addr: nat)
    requires k < |live|
    ensures CountLive(live, addr) >= Holds(Served(live[k].addr, live[k].layout), addr)
  {
    LiveDrop(live, k, addr);
  }

  /** Two live allocations with bytes of their own never overlap. */
  lemma LiveBlocksApart(b: Blocks, heap: Block, k: nat, l: nat)
    requires BlocksOk(b, heap) && k < l < |b.live|
    requires Served(b.live[k].addr, b.live[k].layout).size > 0 && Served(b.live[l].addr, b.live[l].layout).size > 0
    ensures Apart(Served(b.live[k].addr, b.live[k].layout), Served(b.live[l].addr, b.live[l].layout))
  {
    var x, y := Served(b.live[k].addr, b.live[k].layout), Served(b.live[l].addr, b.live[l].layout);
    LiveTwo(b.live, k, l, x.start);
    LiveTwo(b.live, k, l, y.start);
    hide Served, CountLists, CountLive;
    assert CountLists(b.lists, x.start) + CountLive(b.live, x.start) <= Holds(heap, x.start);
    assert CountLists(b.lists, y.start) + CountLive(b.live, y.start) <= Holds(heap, y.start);
  }

  lemma LiveTwo(live: seq<Allocation>, k: nat, l: nat, addr: nat)
    requires k < l < |live|
    ensures CountLive(live, addr) >=
              Holds(Served(live[k].addr, live[k].layout), addr) + Holds(Served(live[l].addr, live[l].layout), addr)
  {
    LiveDrop(live, l, addr);
    var rest := live[..l] + live[l + 1..];
    assert rest[k] == live[k];
    LiveCounted(rest, k, addr);
  }

  // ----- The counters -----

  function LiveBytes(live: seq<Allocation>): nat
  {
    if live == [] then 0 else LiveBytes(live[..|live| - 1]) + live[|live| - 1].layout.size
  }

  lemma {:induction false} LiveBytesDrop(live: seq<Allocation>, k: nat)
    requires k < |live|
    ensures LiveBytes(live) == LiveBytes(live[..k] + live[k + 1..]) + live[k].layout.size
  {
    var front := live[..|live| - 1];
    if k == |live| - 1 {
      assert live[..k] + live[k + 1..] == front;
    } else {
      LiveBytesDrop(front, k);
      var rest := live[..k] + live[k + 1..];
      assert rest[..|rest| - 1] == front[..k] + front[k + 1..];
    }
  }

  /** The allocator as the kernel keeps it, with the two statistics counters. */
  lemma ListCount(b: Blocks, heap: Block)
    requires BlocksOk(b, heap)
    ensures |b.lists| == CLASSES
  {
  }

  class FixedSizeBlockAllocator {
    var listHeads: seq<seq<nat>>
    var liveBytes: nat
    var failures: nat
    ghost var live: seq<Allocation>
    ghost const heap: Block

    ghost function View(): Blocks
      reads this
    {
      Blocks(listHeads, live)
    }

    /** No overlap, and the byte counter is the sum of what is live. */
    ghost predicate Valid()
      reads this
    {
      BlocksOk(View(), heap) && liveBytes == LiveBytes(live)
    }

    constructor (ghost heap: Block)
      ensures Valid() && View() == Blocks(EMPTY_LISTS, []) && failures == 0
    {
      listHeads := EMPTY_LISTS;
      liveBytes, failures := 0, 0;
      live := [];
      this.heap := heap;
      new;
      forall addr: nat ensures CountLists(EMPTY_LISTS, addr) == 0 { EmptyCount(addr, 0); }
    }

    /** `fallback` is what the general heap answers if it is asked. */
    method Allocate(l: Layout, fallback: Option<nat>) returns (r: Option<nat>)
      requires Valid() && IsPow2(l.align) && FallbackOk(View(), heap, l, fallback)
      modifies this
      ensures Valid() && (View(), r) == TakeBlock(old(View()), l, fallback)
      ensures r.Some? ==> r.value % l.align == 0 && Served(r.value, l).size >= l.size
      ensures failures == old(failures) + if r.None? then 1 else 0
    {
      hide BlocksOk, FallbackOk, IsPow2;
      ListCount(View(), heap);
      TakeKeeps(View(), l, fallback, heap);
      if TakeBlock(View(), l, fallback).1.Some? { TakeServes(View(), l, fallback, heap); }
      var index := ListIndex(l);
      if index.Some? && listHeads[index.value] != [] {
        r := Some(listHeads[index.value][0]);
        listHeads := listHeads[index.value := listHeads[index.value][1..]];
      } else {
        r := fallback;
      }
      if r.None? {
        failures := failures + 1;
      } else {
        liveBytes := liveBytes + l.size;
        live := live + [Allocation(r.value, l)];
        assert live[..|live| - 1] == old(live);
      }
    }

    method Deallocate(addr: nat, l: Layout, ghost k: nat)
      requires Valid() && k < |live| && live[k] == Allocation(addr, l)
      modifies this
      ensures Valid() && View() == ReturnBlock(old(View()), k) && failures == old(failures)
    {
      ReturnKeeps(View(), k, heap);
      LiveBytesDrop(live, k);
      liveBytes := liveBytes - l.size;
      var index := ListIndex(l);
      if index.Some? {
        assert 8 <= BLOCK_SIZES[index.value];
        listHeads := listHeads[index.value := [addr] + listHeads[index.value]];
      }
      live := live[..k] + live[k + 1..];
    }
  }
}
