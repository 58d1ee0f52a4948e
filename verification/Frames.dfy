/** The page-frame allocator of src/kernel/memory/paging/paging.cpp: what one request,
  * reservation or release does to the frame map, and what every run of them keeps. */
module Frames {
  import opened BitMaps

  const PAGE_SIZE := 4096
  const KERNEL_USED_MEM := 0x400000

  /** The frame map, the search hint `bitmapIdx` and the two global counters. */
  datatype FrameState = FrameState(bits: seq<bool>, hint: nat, freeMem: int, usedMem: int)

  /** The least clear index at or above `from`; the end of the map when there is none. */
  function LowestFree(bits: seq<bool>, from: nat): (i: nat)
    ensures from <= |bits| ==> from <= i <= |bits|
    ensures from > |bits| ==> i == from
    ensures forall j | from <= j < i :: bits[j]
    ensures i < |bits| ==> !bits[i]
    decreases |bits| - from
  {
    if from >= |bits| || !bits[from] then from else LowestFree(bits, from + 1)
  }

  // ---------- One operation ----------

  /** `allocPg`. */
  function Reserve(s: FrameState, f: nat): FrameState
    requires f < |s.bits|
  {
    if s.bits[f] then s
    else s.(bits := s.bits[f := true], freeMem := s.freeMem - PAGE_SIZE, usedMem := s.usedMem + PAGE_SIZE)
  }

  /** `freePg`. */
  function Release(s: FrameState, f: nat): FrameState
    requires f < |s.bits|
  {
    if !s.bits[f] then s
    else s.(bits := s.bits[f := false], hint := if s.hint > f then f else s.hint,
            freeMem := s.freeMem + PAGE_SIZE, usedMem := s.usedMem - PAGE_SIZE)
  }

  /** The frame `reqPg` hands out. */
  function Grant(s: FrameState): nat
  {
    LowestFree(s.bits, s.hint)
  }

  predicate CanGrant(s: FrameState)
  {
    Grant(s) < |s.bits|
  }

  /** `reqPg`. */
  function Request(s: FrameState): FrameState
    requires CanGrant(s)
  {
    Reserve(s, Grant(s)).(hint := Grant(s) + 1)
  }

  // ---------- Runs of operations ----------

  datatype Op = ReqPg | AllocPg(frame: nat) | FreePg(frame: nat)

  predicate Enabled(s: FrameState, op: Op)
  {
    match op
    case ReqPg => CanGrant(s)
    case AllocPg(f) => f < |s.bits|
    case FreePg(f) => f < |s.bits|
  }

  function Step(s: FrameState, op: Op): FrameState
    requires Enabled(s, op)
  {
    match op
    case ReqPg => Request(s)
    case AllocPg(f) => Reserve(s, f)
    case FreePg(f) => Release(s, f)
  }

  predicate Runs(s: FrameState, ops: seq<Op>)
    decreases |ops|
  {
    ops == [] || (Enabled(s, ops[0]) && Runs(Step(s, ops[0]), ops[1..]))
  }

  function Run(s: FrameState, ops: seq<Op>): FrameState
    requires Runs(s, ops)
    decreases |ops|
  {
    if ops == [] then s else Run(Step(s, ops[0]), ops[1..])
  }

  /** Everything below the hint is taken. */
  predicate HintSound(s: FrameState)
  {
    s.hint <= |s.bits| && forall i | 0 <= i < s.hint :: s.bits[i]
  }

  lemma {:induction false} RunKeepsHintSound(s: FrameState, ops: seq<Op>)
    requires HintSound(s) && Runs(s, ops)
    ensures HintSound(Run(s, ops)) && |Run(s, ops).bits| == |s.bits|
    decreases |ops|
  {
    if ops != [] {
      RunKeepsHintSound(Step(s, ops[0]), ops[1..]);
    }
  }

  lemma {:induction false} LowestFreeFrom(bits: seq<bool>, from: nat, to: nat)
    requires from <= to <= |bits| && forall i | from <= i < to :: bits[i]
    ensures LowestFree(bits, from) == LowestFree(bits, to)
    decreases |bits| - from
  {
    if from < to {
      LowestFreeFrom(bits, from + 1, to);
    }
  }

  /** After any interleaving of requests, reservations and releases the hinted search finds
    * what a full scan from frame 0 finds: the lowest free frame, whenever there is one. */
  lemma {:induction false} HintedSearchIsFullScan(s: FrameState, ops: seq<Op>)
    requires HintSound(s) && Runs(s, ops)
    ensures var t := Run(s, ops);
            && Grant(t) == LowestFree(t.bits, 0)
            && (CanGrant(t) <==> exists f | 0 <= f < |t.bits| :: !t.bits[f])
            && (forall f | 0 <= f < |t.bits| && !t.bits[f] :: Grant(t) <= f)
  {
    RunKeepsHintSound(s, ops);
    var t := Run(s, ops);
    LowestFreeFrom(t.bits, 0, t.hint);
    assert forall f | 0 <= f < LowestFree(t.bits, 0) :: t.bits[f];
  }

  /** Bits that the requests of a run look at. */
  function Scanned(s: FrameState, ops: seq<Op>): nat
    requires HintSound(s) && Runs(s, ops)
    decreases |ops|
  {
    if ops == [] then 0
    else
      (if ops[0].ReqPg? then Grant(s) - s.hint + 1 else 0) + Scanned(Step(s, ops[0]), ops[1..])
  }

  /** How far the releases of a run take the search back. */
  function TakenBack(s: FrameState, ops: seq<Op>): nat
    requires HintSound(s) && Runs(s, ops)
    decreases |ops|
  {
    if ops == [] then 0
    else
      (if ops[0].FreePg? && s.bits[ops[0].frame] && ops[0].frame < s.hint then s.hint - ops[0].frame else 0)
      + TakenBack(Step(s, ops[0]), ops[1..])
  }

  /** What the hint is for: no bit is looked at twice unless a release below it made it worth
    * looking again. Without releases a whole run looks at every bit at most once. */
  lemma {:induction false} HintSavesScanning(s: FrameState, ops: seq<Op>)
    requires HintSound(s) && Runs(s, ops)
    ensures s.hint + Scanned(s, ops) == Run(s, ops).hint + TakenBack(s, ops)
    ensures Scanned(s, ops) <= |s.bits| - s.hint + TakenBack(s, ops)
    decreases |ops|
  {
    RunKeepsHintSound(s, ops);
    if ops != [] {
      HintSavesScanning(Step(s, ops[0]), ops[1..]);
    }
  }

  // ---------- Memory accounting ----------

  function Clear(bits: seq<bool>): nat
  {
    if bits == [] then 0 else Clear(bits[1..]) + (if bits[0] then 0 else 1)
  }

  lemma {:induction false} ClearUpdate(bits: seq<bool>, f: nat, val: bool)
    requires f < |bits|
    ensures Clear(bits[f := val]) == Clear(bits) - (if bits[f] then 0 else 1) + (if val then 0 else 1)
    decreases |bits|
  {
    if f > 0 {
      ClearUpdate(bits[1..], f - 1, val);
      assert bits[f := val][1..] == bits[1..][f - 1 := val];
    } else {
      assert bits[f := val][1..] == bits[1..];
    }
  }

  lemma {:induction false} ClearMonotone(a: seq<bool>, b: seq<bool>)
    requires |a| == |b| && forall i | 0 <= i < |a| && a[i] :: b[i]
    ensures Clear(b) <= Clear(a)
  {
    if a != [] {
      ClearMonotone(a[1..], b[1..]);
    }
  }

  /** freeMem that is not backed by a clear bit. */
  function Slack(s: FrameState): int
  {
    s.freeMem - PAGE_SIZE * Clear(s.bits)
  }

  /** No run changes freeMem + usedMem, nor freeMem - 4096 * (number of clear bits). */
  lemma {:induction false} RunConservesMemory(s: FrameState, ops: seq<Op>)
    requires Runs(s, ops)
    ensures var t := Run(s, ops);
            t.freeMem + t.usedMem == s.freeMem + s.usedMem && Slack(t) == Slack(s)
    decreases |ops|
  {
    if ops != [] {
      match ops[0] {
        case ReqPg => ClearUpdate(s.bits, Grant(s), true);
        case AllocPg(f) => ClearUpdate(s.bits, f, true);
        case FreePg(f) => ClearUpdate(s.bits, f, false);
      }
      RunConservesMemory(Step(s, ops[0]), ops[1..]);
    }
  }

  // ---------- Frames that are never handed out ----------

  /** The frames a client holds after a run: granted and not yet released. */
  function Held(s: FrameState, ops: seq<Op>, own: set<nat>): set<nat>
    requires Runs(s, ops)
    decreases |ops|
  {
    if ops == [] then own
    else
      var own' := match ops[0]
        case ReqPg => own + {Grant(s)}
        case AllocPg(f) => own
        case FreePg(f) => own - {f};
      Held(Step(s, ops[0]), ops[1..], own')
  }

  /** Only frames that were granted are released. */
  predicate Disciplined(s: FrameState, ops: seq<Op>, own: set<nat>)
    requires Runs(s, ops)
    decreases |ops|
  {
    ops == [] ||
    (match ops[0]
     case ReqPg => Disciplined(Step(s, ops[0]), ops[1..], own + {Grant(s)})
     case AllocPg(f) => Disciplined(Step(s, ops[0]), ops[1..], own)
     case FreePg(f) => f in own && Disciplined(Step(s, ops[0]), ops[1..], own - {f}))
  }

  predicate AllTaken(s: FrameState, fs: set<nat>)
  {
    forall f | f in fs :: f < |s.bits| && s.bits[f]
  }

  lemma {:induction false} RunKeepsReserved(s: FrameState, ops: seq<Op>, own: set<nat>, reserved: set<nat>)
    requires Runs(s, ops) && Disciplined(s, ops, own)
    requires AllTaken(s, reserved + own) && reserved !! own
    ensures AllTaken(Run(s, ops), reserved + Held(s, ops, own)) && reserved !! Held(s, ops, own)
    ensures |Run(s, ops).bits| == |s.bits|
    decreases |ops|
  {
    if ops != [] {
      var own' := match ops[0]
        case ReqPg => own + {Grant(s)}
        case AllocPg(f) => own
        case FreePg(f) => own - {f};
      RunKeepsReserved(Step(s, ops[0]), ops[1..], own', reserved);
    }
  }

  /** Reserved frames are never granted, and a grant is never a frame somebody still holds. */
  lemma ReservedNeverGranted(s: FrameState, ops: seq<Op>, reserved: set<nat>)
    requires Runs(s, ops) && Disciplined(s, ops, {}) && AllTaken(s, reserved)
    requires CanGrant(Run(s, ops))
    ensures Grant(Run(s, ops)) !in reserved + Held(s, ops, {})
  {
    RunKeepsReserved(s, ops, {}, reserved);
  }

  /** Along a disciplined run the two unsigned counters never wrap. */
  lemma CountersStayUnsigned(s: FrameState, ops: seq<Op>)
    requires Runs(s, ops) && Disciplined(s, ops, {})
    requires Slack(s) >= 0 && s.usedMem >= 0
    ensures 0 <= Run(s, ops).freeMem <= s.freeMem && s.usedMem <= Run(s, ops).usedMem
  {
    var taken := set f | 0 <= f < |s.bits| && s.bits[f];
    RunKeepsReserved(s, ops, {}, taken);
    RunConservesMemory(s, ops);
    var t := Run(s, ops);
    assert forall i | 0 <= i < |s.bits| && s.bits[i] :: i in taken;
    ClearMonotone(s.bits, t.bits);
  }

  // ---------- The allocator object ----------

  /** One entry of the firmware memory map. */
  datatype Region = Region(base: nat, length: nat, usable: bool)

  /** The frames the region loop of `initPgAlloc` marks; its upper bound adds the
    * remainder of the end address instead of rounding the end up. */
  predicate RegionMarks(md: Region, f: nat)
  {
    && !md.usable
    && md.base / PAGE_SIZE <= f
    && PAGE_SIZE * f < md.base + md.length + (md.base + md.length) % PAGE_SIZE
  }

  predicate AnyRegionMarks(memMap: seq<Region>, f: nat)
  {
    exists k | 0 <= k < |memMap| :: RegionMarks(memMap[k], f)
  }

  /** Boot area, video memory, kernel image, kernel heap. */
  predicate KernelFrame(f: nat)
  {
    || PAGE_SIZE * f < 0x9000
    || 0x80000 <= PAGE_SIZE * f < 0xfffff
    || 0x100000 <= PAGE_SIZE * f < KERNEL_USED_MEM
    || 0x200000 <= PAGE_SIZE * f < 0x3000000
  }

  /** The frame shares a byte with a region that is not usable. */
  predicate OverlapsUnusable(md: Region, f: nat)
  {
    !md.usable && md.base < PAGE_SIZE * (f + 1) && PAGE_SIZE * f < md.base + md.length
  }

  /** The first frame that lies wholly past the region. */
  function FrameAfter(md: Region): nat
  {
    (md.base + md.length + PAGE_SIZE - 1) / PAGE_SIZE
  }

  /** Despite its rounding the region loop misses no overlapping frame. It marks one frame
    * past the region exactly when the end is in the upper half of a page, and no other. */
  lemma RegionMarksCoverRegion(md: Region, f: nat)
    ensures OverlapsUnusable(md, f) ==> RegionMarks(md, f)
    ensures !md.usable && md.length > 0 ==>
              (RegionMarks(md, f) && !OverlapsUnusable(md, f) <==>
               f == FrameAfter(md) && (md.base + md.length) % PAGE_SIZE > 2048)
  {
  }

  function MemSize(memMap: seq<Region>): nat
    requires |memMap| > 0
  {
    memMap[|memMap| - 1].base + memMap[|memMap| - 1].length
  }

  /** Bits in the map: a whole number of bytes. */
  function MapSize(memMap: seq<Region>): nat
    requires |memMap| > 0
  {
    8 * (MemSize(memMap) / PAGE_SIZE / 8)
  }

  /** Every whole page below the end of the last region has a bit, but for at most seven. */
  lemma MapCoversMemory(memMap: seq<Region>, last: Region)
    requires |memMap| > 0 && last == memMap[|memMap| - 1]
    ensures MapSize(memMap) % 8 == 0
    ensures 4096 * MapSize(memMap) <= last.base + last.length < 4096 * (MapSize(memMap) + 8)
  {
  }

  lemma {:induction false} ClearBound(bits: seq<bool>)
    ensures Clear(bits) <= |bits|
  {
    if bits != [] {
      ClearBound(bits[1..]);
    }
  }

  /** The state `initPgAlloc` leaves behind. */
  ghost predicate Initialised(s: FrameState, memMap: seq<Region>)
    requires |memMap| > 0
  {
    && |s.bits| == MapSize(memMap)
    && (forall f | 0 <= f < |s.bits| :: s.bits[f] == (KernelFrame(f) || AnyRegionMarks(memMap, f)))
    && HintSound(s)
    && s.freeMem + s.usedMem == MemSize(memMap) + KERNEL_USED_MEM
    && Slack(s) >= 0 && s.usedMem >= KERNEL_USED_MEM
  }

  /** From the initial state on, no frame of the kernel and none that shares a byte with an
    * unusable region is ever granted, as long as clients free only what they were given. */
  lemma BootFramesNeverGranted(memMap: seq<Region>, s: FrameState, ops: seq<Op>)
    requires |memMap| > 0 && Initialised(s, memMap)
    requires Runs(s, ops) && Disciplined(s, ops, {}) && CanGrant(Run(s, ops))
    ensures var f := Grant(Run(s, ops));
            !KernelFrame(f) && forall k | 0 <= k < |memMap| :: !OverlapsUnusable(memMap[k], f)
    ensures forall a: nat | a / 4096 == Grant(Run(s, ops)) ::
              a >= 0x9000 && !(0x80000 <= a < 0x100000) && !(0x100000 <= a < 0x400000) && !(0x200000 <= a < 0x3000000)
  {
    var taken := set f | 0 <= f < |s.bits| && s.bits[f];
    RunKeepsReserved(s, ops, {}, taken);
    var f := Grant(Run(s, ops));
    assert f !in taken && !AnyRegionMarks(memMap, f);
    forall k | 0 <= k < |memMap|
      ensures !OverlapsUnusable(memMap[k], f)
    {
      assert !RegionMarks(memMap[k], f);
      RegionMarksCoverRegion(memMap[k], f);
    }
  }

  class PgFrAllocator {
    const pgsMap: BitMap
    var bitmapIdx: nat
    var freeMem: int
    var usedMem: int

    ghost function Repr(): set<object>
    {
      {this, pgsMap.buffer}
    }

    ghost function State(): (s: FrameState)
      reads this, pgsMap.buffer
    {
      FrameState(pgsMap.Bits(), bitmapIdx, freeMem, usedMem)
    }

    /** The map has room for every index the guards of `BitMap` let through. */
    ghost predicate Valid()
      reads this, pgsMap.buffer
    {
      pgsMap.buffer.Length == pgsMap.length / 8
    }

    method AllocPg(idx: nat)
      requires Valid() && idx < |State().bits|
      modifies Repr()
      ensures Valid() && State() == Reserve(old(State()), idx)
    {
      hide Unpack;
      var taken := pgsMap.Get(idx);
      if taken {
        return;
      }
      var ok := pgsMap.Set(idx, true);
      if ok {
        freeMem := freeMem - PAGE_SIZE;
        usedMem := usedMem + PAGE_SIZE;
      }
    }

    method FreePg(idx: nat)
      requires Valid() && idx < |State().bits|
      modifies Repr()
      ensures Valid() && State() == Release(old(State()), idx)
    {
      hide Unpack;
      var taken := pgsMap.Get(idx);
      if !taken {
        return;
      }
      var ok := pgsMap.Set(idx, false);
      if ok {
        freeMem := freeMem + PAGE_SIZE;
        usedMem := usedMem - PAGE_SIZE;
        if bitmapIdx > idx {
          bitmapIdx := idx;
        }
      }
    }

    /** Frame 0 is NULL; a request that finds nothing returns it too. The loop bound is
      * length * 8, eight times the map, so a scan that finds no clear bit leaves the
      * buffer unless the hint is already past that bound. */
    method ReqPg() returns (frame: nat)
      requires Valid() && (CanGrant(State()) || bitmapIdx >= pgsMap.length * 8)
      modifies Repr()
      ensures Valid()
      ensures old(CanGrant(State())) ==> State() == Request(old(State())) && frame == Grant(old(State()))
      ensures !old(CanGrant(State())) ==> State() == old(State()) && frame == 0
    {
      hide Unpack;
      var len := pgsMap.length;
      ghost var goal := Grant(State());
      while bitmapIdx < len * 8
        invariant State() == old(State()).(hint := bitmapIdx)
        invariant Valid() && (CanGrant(State()) || bitmapIdx >= len * 8)
        invariant Grant(State()) == goal && (goal >= |State().bits| ==> bitmapIdx == old(bitmapIdx))
        decreases |State().bits| - bitmapIdx
      {
        var taken := pgsMap.Get(bitmapIdx);
        if taken {
          bitmapIdx := bitmapIdx + 1;
          continue;
        }
        AllocPg(bitmapIdx);
        bitmapIdx := bitmapIdx + 1;
        return bitmapIdx - 1;
      }
      frame := 0;
    }

    /** The frames of one address range, as the boot, video, kernel and heap loops mark them. */
    method AllocRange(from: nat, to: nat)
      requires Valid() && from % PAGE_SIZE == 0 && to <= PAGE_SIZE * |State().bits|
      modifies Repr()
      ensures Valid() && |State().bits| == old(|State().bits|) && bitmapIdx == old(bitmapIdx)
      ensures forall f | 0 <= f < |State().bits| ::
                State().bits[f] == (old(State().bits)[f] || from <= PAGE_SIZE * f < to)
      ensures freeMem + usedMem == old(freeMem + usedMem) && Slack(State()) == old(Slack(State()))
      ensures usedMem >= old(usedMem)
    {
      var pg := from;
      while pg < to
        invariant pg % PAGE_SIZE == 0 && from <= pg
        invariant Valid() && |State().bits| == old(|State().bits|) && bitmapIdx == old(bitmapIdx)
        invariant forall f | 0 <= f < |State().bits| ::
                    State().bits[f] == (old(State().bits)[f] || (from <= PAGE_SIZE * f < to && PAGE_SIZE * f < pg))
        invariant freeMem + usedMem == old(freeMem + usedMem) && Slack(State()) == old(Slack(State()))
        invariant usedMem >= old(usedMem)
      {
        ClearUpdate(State().bits, pg / PAGE_SIZE, true);
        AllocPg(pg / PAGE_SIZE);
        pg := pg + PAGE_SIZE;
      }
    }

    method MarkRegion(md: Region)
      requires Valid() && !md.usable
      requires forall f: nat | RegionMarks(md, f) :: f < |State().bits|
      modifies pgsMap.buffer
      ensures Valid() && |State().bits| == old(|State().bits|)
      ensures forall f | 0 <= f < |State().bits| ::
                State().bits[f] == (old(State().bits)[f] || RegionMarks(md, f))
    {
      var end := md.base + md.length;
      var pg := md.base - md.base % PAGE_SIZE;
      ghost var first := md.base / PAGE_SIZE;
      ghost var n := first;
      while pg < end + end % PAGE_SIZE
        invariant pg == PAGE_SIZE * n && first <= n
        invariant n == first || PAGE_SIZE * (n - 1) < end + end % PAGE_SIZE
        invariant Valid() && |State().bits| == old(|State().bits|)
        invariant forall f | 0 <= f < |State().bits| ::
                    State().bits[f] == (old(State().bits)[f] || first <= f < n)
      {
        assert RegionMarks(md, n);
        var _ := pgsMap.Set(pg / PAGE_SIZE, true);
        pg := pg + PAGE_SIZE;
        n := n + 1;
      }
      assert forall f: nat :: RegionMarks(md, f) <==> first <= f < n;
    }

    method MarkRegions(memMap: seq<Region>)
      requires Valid()
      requires forall f: nat | AnyRegionMarks(memMap, f) :: f < |State().bits|
      modifies pgsMap.buffer
      ensures Valid() && |State().bits| == old(|State().bits|)
      ensures forall f | 0 <= f < |State().bits| ::
                State().bits[f] == (old(State().bits)[f] || AnyRegionMarks(memMap, f))
    {
      for k := 0 to |memMap|
        invariant Valid() && |State().bits| == old(|State().bits|)
        invariant forall f | 0 <= f < |State().bits| ::
                    State().bits[f] == (old(State().bits)[f] || AnyRegionMarks(memMap[..k], f))
      {
        assert forall f: nat ::
                 AnyRegionMarks(memMap[..k + 1], f) == (AnyRegionMarks(memMap[..k], f) || RegionMarks(memMap[k], f));
        if !memMap[k].usable {
          assert forall f: nat | RegionMarks(memMap[k], f) :: AnyRegionMarks(memMap, f);
          MarkRegion(memMap[k]);
        }
      }
      assert memMap[..|memMap|] == memMap;
    }

    /** `initPgAlloc`: the map marks the kernel's own frames and those the region loop
      * covers, and nothing else; the hint is past the boot area. The map must reach past
      * the kernel heap and past every frame the region loop marks. */
    constructor (memMap: seq<Region>)
      requires |memMap| > 0
      requires var frames := MapSize(memMap);
               0x3000 <= frames && forall f: nat | AnyRegionMarks(memMap, f) :: f < frames
      ensures Valid() && fresh(Repr())
      ensures Initialised(State(), memMap)
    {
      var memSize := MemSize(memMap);
      freeMem := memSize;
      usedMem := KERNEL_USED_MEM;
      bitmapIdx := 0;
      pgsMap := new BitMap(memSize / PAGE_SIZE);
      new;
      ClearBound(State().bits);
      MarkRegions(memMap);
      ClearBound(State().bits);
      AllocRange(0, 0x9000);
      bitmapIdx := 0x9000 / PAGE_SIZE;
      AllocRange(0x80000, 0xfffff);
      AllocRange(0x100000, KERNEL_USED_MEM);
      AllocRange(0x200000, 0x3000000);
    }
  }
}
