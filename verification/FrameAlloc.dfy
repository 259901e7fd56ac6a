/** Physical frames handed out from the boot memory map, each at most once. A frame is named by its number. */
module FrameAlloc {
  import opened Base

  /** A region of the memory map: frames `first` up to, not including, `end`. */
  datatype Region = Region(first: nat, end: nat, usable: bool)

  function FrameRange(first: nat, end: nat): (s: seq<nat>)
    ensures |s| == if first < end then end - first else 0
    ensures forall k | 0 <= k < |s| :: s[k] == first + k
    decreases end - first
  {
    if first >= end then [] else [first] + FrameRange(first + 1, end)
  }

  /** usable_frames: the frames of the usable regions, region by region. */
  function UsableFrames(regions: seq<Region>): seq<nat>
  {
    if regions == [] then []
    else (if regions[0].usable then FrameRange(regions[0].first, regions[0].end) else []) + UsableFrames(regions[1..])
  }

  predicate Inside(r: Region, frame: nat) { r.usable && r.first <= frame < r.end }

  lemma {:induction false} UsableIff(regions: seq<Region>, frame: nat)
    ensures frame in UsableFrames(regions) <==> exists k :: 0 <= k < |regions| && Inside(regions[k], frame)
  {
    if regions != [] {
      UsableIff(regions[1..], frame);
      var here := if regions[0].usable then FrameRange(regions[0].first, regions[0].end) else [];
      assert frame in here <==> Inside(regions[0], frame) by {
        if Inside(regions[0], frame) { assert here[frame - regions[0].first] == frame; }
      }
      if k :| 0 <= k < |regions| && Inside(regions[k], frame) {
        if k > 0 { assert Inside(regions[1..][k - 1], frame); }
      }
      if k :| 0 <= k < |regions[1..]| && Inside(regions[1..][k], frame) { assert Inside(regions[k + 1], frame); }
    }
  }

  /** Usable regions of a memory map do not overlap. */
  ghost predicate NoOverlap(regions: seq<Region>)
  {
    forall i, j, frame | 0 <= i < |regions| && 0 <= j < |regions| && Inside(regions[i], frame) &&
        Inside(regions[j], frame) :: i == j
  }

  /** No frame is listed twice exactly when the usable regions do not overlap. */
  lemma {:induction false} DistinctIff(regions: seq<Region>)
    ensures Distinct(UsableFrames(regions)) <==> NoOverlap(regions)
  {
    if regions != [] {
      var rest := UsableFrames(regions[1..]);
      var here := if regions[0].usable then FrameRange(regions[0].first, regions[0].end) else [];
      DistinctIff(regions[1..]);
      assert UsableFrames(regions) == here + rest;
      assert forall k | 0 <= k < |here| :: Inside(regions[0], here[k]);
      if NoOverlap(regions) {
        NoOverlapRest(regions);
        forall k, l | 0 <= k < |here| && 0 <= l < |rest| ensures here[k] != rest[l] {
          UsableIff(regions[1..], here[k]);
          assert forall j | 0 <= j < |regions[1..]| :: regions[1..][j] == regions[j + 1];
          assert here[k] !in rest;
        }
      }
      if Distinct(UsableFrames(regions)) { OverlapRefuted(regions); }
    }
  }

  lemma NoOverlapRest(regions: seq<Region>)
    requires regions != [] && NoOverlap(regions)
    ensures NoOverlap(regions[1..])
  {
    forall i, j, frame | 0 <= i < |regions[1..]| && 0 <= j < |regions[1..]| && Inside(regions[1..][i], frame) &&
        Inside(regions[1..][j], frame)
      ensures i == j
    {
      assert Inside(regions[i + 1], frame) && Inside(regions[j + 1], frame);
    }
  }

  lemma {:induction false} OverlapRefuted(regions: seq<Region>)
    requires Distinct(UsableFrames(regions))
    ensures NoOverlap(regions)
  {
    if regions != [] {
      var rest := UsableFrames(regions[1..]);
      var here := if regions[0].usable then FrameRange(regions[0].first, regions[0].end) else [];
      var all := here + rest;
      assert UsableFrames(regions) == all;
      assert forall k | 0 <= k < |rest| :: rest[k] == all[|here| + k];
      OverlapRefuted(regions[1..]);
      forall i, j, frame: nat | 0 <= i < |regions| && 0 <= j < |regions| && Inside(regions[i], frame) &&
          Inside(regions[j], frame)
        ensures i == j
      {
        UsableIff(regions[1..], frame);
        assert i > 0 ==> Inside(regions[1..][i - 1], frame);
        assert j > 0 ==> Inside(regions[1..][j - 1], frame);
        if Inside(regions[0], frame) {
          assert all[frame - regions[0].first] == frame;
          assert frame !in rest;
        }
      }
    }
  }

  class BootInfoFrameAllocator {
    const memoryMap: seq<Region>
    var next: nat

    /** The frames not handed out yet, in the order they will be. */
    ghost function Spare(): seq<nat>
      reads this
    {
      var all := UsableFrames(memoryMap);
      if next <= |all| then all[next..] else []
    }

    ghost predicate Valid()
      reads this
    {
      NoOverlap(memoryMap) && next <= |UsableFrames(memoryMap)|
    }

    constructor (memoryMap: seq<Region>)
      requires NoOverlap(memoryMap)
      ensures Valid() && Spare() == UsableFrames(memoryMap) && Distinct(Spare())
    {
      this.memoryMap := memoryMap;
      next := 0;
      new;
      DistinctIff(memoryMap);
    }

    method AllocateFrame() returns (frame: Option<nat>)
      requires Valid()
      modifies this
      ensures Valid()
      ensures frame.None? <==> old(Spare()) == []
      ensures frame.None? ==> Spare() == old(Spare())
      ensures frame.Some? ==> old(Spare()) == [frame.value] + Spare() && frame.value !in Spare()
    {
      var frames := UsableFrames(memoryMap);
      if next >= |frames| { return None; }
      frame := Some(frames[next]);
      next := next + 1;
      DistinctIff(memoryMap);
    }
  }
}
