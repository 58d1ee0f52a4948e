/** The page manager object and the loops that drive it: `PgMgr::mapPg`, the ELF loader and
  * the page handling of both `createTask` functions and of `freeTask`, each proved to compute
  * the state its specification in the other modules gives. */
module PageManager {
  import opened Frames
  import opened Options
  import opened PageEntries
  import opened PageTables
  import opened UserSpace
  import opened Lifecycle
  import opened ProcessRuns
  import opened Boot

  /** n pages in a row from page i of the window on. */
  ghost predicate CanTakePages(m: Machine, i: nat, n: nat, flags: nat)
    decreases n
  {
    n > 0 ==> CanTake(m, i, flags) && CanTakePages(TakePage(m, i, flags), i + 1, n - 1, flags)
  }

  ghost function TakePages(m: Machine, i: nat, n: nat, flags: nat): Machine
    requires CanTakePages(m, i, n, flags)
    decreases n
  {
    if n == 0 then m else TakePages(TakePage(m, i, flags), i + 1, n - 1, flags)
  }

  lemma {:induction false} TakeMore(m: Machine, i: nat, n: nat, more: nat, flags: nat)
    requires CanTakePages(m, i, n + more, flags)
    ensures CanTakePages(m, i, n, flags) && CanTakePages(TakePages(m, i, n, flags), i + n, more, flags)
    ensures TakePages(m, i, n + more, flags) == TakePages(TakePages(m, i, n, flags), i + n, more, flags)
    decreases n
  {
    hide TakePage, CanTake;
    if n > 0 {
      TakeMore(TakePage(m, i, flags), i + 1, n - 1, more, flags);
    }
  }

  /** The page steps of a process are the page steps of its machine. */
  lemma {:induction false} GrowTakesPages(s: System, t: nat, n: nat, flags: nat)
    requires CanGrow(s, t, n, flags)
    ensures CanTakePages(s.m, s.procs[t].pages, n, flags)
    ensures Grow(s, t, n, flags) ==
            System(TakePages(s.m, s.procs[t].pages, n, flags),
                   s.procs[t := Process(s.procs[t].pd, s.procs[t].pages + n)])
    decreases n
  {
    hide TakePage, CanTake;
    if n > 0 {
      GrowTakesPages(NextPage(s, t, flags), t, n - 1, flags);
    } else {
      assert s.procs[t := s.procs[t]] == s.procs;
    }
  }

  datatype SegmentType = PT_NULL | PT_LOAD | PT_TLS | PT_OTHER
  datatype Phdr = Phdr(kind: SegmentType, memsz: nat)

  function PagesFor(bytes: nat): nat
  {
    (bytes + PAGE_SIZE - 1) / PAGE_SIZE
  }

  /** A `uint8_t` counter. */
  function Low8(n: nat): nat
  {
    n % 256
  }

  function Inc8(n: nat): nat
  {
    (n + 1) % 256
  }

  lemma IncLow8(n: nat)
    ensures Inc8(Low8(n)) == Low8(n + 1)
  {
  }

  lemma PageCount(bytes: nat, k: nat)
    requires k == 0 || PAGE_SIZE * (k - 1) < bytes
    ensures if PAGE_SIZE * k < bytes then k < PagesFor(bytes) else k == PagesFor(bytes)
  {
  }

  /** Pages the loader maps for an image. */
  function ImagePages(phdrs: seq<Phdr>): nat
  {
    if phdrs == [] then 0
    else
      ImagePages(phdrs[..|phdrs| - 1]) +
      (if phdrs[|phdrs| - 1].kind == PT_LOAD then PagesFor(phdrs[|phdrs| - 1].memsz) else 0)
  }

  lemma {:induction false} ImagePagesPrefix(phdrs: seq<Phdr>, i: nat)
    requires i <= |phdrs|
    ensures ImagePages(phdrs[..i]) <= ImagePages(phdrs)
    decreases |phdrs| - i
  {
    if i == |phdrs| {
      assert phdrs[..i] == phdrs;
    } else {
      assert phdrs[..i + 1][..i] == phdrs[..i];
      ImagePagesPrefix(phdrs, i + 1);
    }
  }

  /** Every loadable segment gets its memory size in whole pages, behind those of the loadable
    * segments before it; the others get none. */
  lemma SegmentPlace(phdrs: seq<Phdr>, i: nat)
    requires i < |phdrs|
    ensures ImagePages(phdrs[..0]) == 0 && ImagePages(phdrs[..i + 1]) <= ImagePages(phdrs)
    ensures ImagePages(phdrs[..i + 1]) ==
            ImagePages(phdrs[..i]) + if phdrs[i].kind == PT_LOAD then (phdrs[i].memsz + 4095) / 4096 else 0
  {
    assert phdrs[..i + 1][..i] == phdrs[..i];
    ImagePagesPrefix(phdrs, i + 1);
  }

  /** In a process that was built from an image every byte of every loadable segment lies in a
    * page of that process: segments are laid out one after the other from the window start. */
  lemma SegmentsPresent(s: System, k: Kernel, t: nat, phdrs: seq<Phdr>, i: nat, b: nat)
    requires Sound(s, k) && t in s.procs && ImagePages(phdrs) <= s.procs[t].pages <= 512
    requires i < |phdrs| && phdrs[i].kind == PT_LOAD && b < phdrs[i].memsz
    ensures WellSized(s.m) && k.upd < |s.m.mem| && ROOT < |s.m.mem|
    ensures var seen := View(s.m, k.upd, s.procs[t].pd, 0x70000000 + 4096 * ImagePages(phdrs[..i]) + b);
            seen.Page? && seen.flags == 7 && seen.frame in Owned(s.m, s.procs[t])
  {
    hide FrameOf, Sound, Owned, View, ImagePages;
    SegmentPlace(phdrs, i);
    var page := ImagePages(phdrs[..i]) + b / 4096;
    assert PageAddr(page) + b % 4096 == 0x70000000 + 4096 * ImagePages(phdrs[..i]) + b;
    ProcessSees(s, k, t, page, b % 4096);
  }

  /** One page step taken off the front. */
  lemma FirstOfPages(m: Machine, i: nat, n: nat, flags: nat)
    requires CanTakePages(m, i, n, flags) && n > 0
    ensures CanTake(m, i, flags) && CanTakePages(TakePage(m, i, flags), i + 1, n - 1, flags)
    ensures TakePages(m, i, n, flags) == TakePages(TakePage(m, i, flags), i + 1, n - 1, flags)
  {
    hide TakePage, CanTake;
  }

  lemma NoPages(m: Machine, i: nat, flags: nat)
    ensures CanTakePages(m, i, 0, flags) && TakePages(m, i, 0, flags) == m
  {
    hide TakePage, CanTake;
  }

  /** Every frame in use stays in use. */
  ghost predicate FramesStay(m: Machine, m': Machine)
  {
    |m'.frames.bits| == |m.frames.bits| && forall x | 0 <= x < |m.frames.bits| && m.frames.bits[x] :: m'.frames.bits[x]
  }

  lemma {:induction false} BuildPathFrames(m: Machine, f: nat, level: nat, v: nat, flags: nat)
    requires 1 <= level <= 4 && CanBuild(m, f, level, v, flags)
    ensures FramesStay(m, BuildPath(m, f, level, v, flags).0)
    decreases level
  {
    hide FrameOf, Bit, MakeEntry;
    if level > 1 {
      var m' := EnsureTable(m, f, Index(v, level), flags);
      BuildPathFrames(m', FrameOf(m'.mem[f][Index(v, level)]), level - 1, v, flags);
    }
  }

  lemma TakePageFrames(m: Machine, i: nat, flags: nat)
    requires CanTake(m, i, flags)
    ensures FramesStay(m, TakePage(m, i, flags))
  {
    hide FrameOf, Bit, MakeEntry;
    BuildPathFrames(m.(frames := Request(m.frames)), ROOT, 4, PageAddr(i), flags);
  }

  lemma {:induction false} TakePagesFrames(m: Machine, i: nat, n: nat, flags: nat)
    requires CanTakePages(m, i, n, flags)
    ensures FramesStay(m, TakePages(m, i, n, flags))
    decreases n
  {
    hide TakePage, CanTake;
    if n > 0 {
      TakePageFrames(m, i, flags);
      TakePagesFrames(TakePage(m, i, flags), i + 1, n - 1, flags);
    }
  }

  /** Page 0 is in use from the start, so a request never returns it along the way. */
  lemma FrameZeroTaken(m: Machine, n: nat)
    requires CanTakePages(m, 0, n, USER_FLAGS) && 0 < |m.frames.bits| && m.frames.bits[0]
    ensures Grant(TakePages(m, 0, n, USER_FLAGS).frames) != 0
  {
    hide TakePages, CanTakePages;
    TakePagesFrames(m, 0, n, USER_FLAGS);
  }

  /** One page further along a longer sequence of page steps. */
  lemma TakeOneMore(m: Machine, done: nat, total: nat, flags: nat)
    requires CanTakePages(m, 0, total, flags) && done < total
    ensures CanTakePages(m, 0, done, flags) && CanTakePages(m, 0, done + 1, flags)
    ensures CanTake(TakePages(m, 0, done, flags), done, flags)
    ensures TakePages(m, 0, done + 1, flags) == TakePage(TakePages(m, 0, done, flags), done, flags)
  {
    hide TakePage, CanTake;
    TakeMore(m, 0, done, total - done, flags);
    TakeMore(m, 0, done + 1, total - done - 1, flags);
    TakeMore(m, 0, done, 1, flags);
    var m1 := TakePages(m, 0, done, flags);
    assert TakePages(m1, done, 1, flags) == TakePages(TakePage(m1, done, flags), done + 1, 0, flags);
  }

  /** Building a process is: null the slot, n page steps, read the slot, restore it. */
  lemma CreateIsLoad(s: System, k: Kernel, t: nat, n: nat)
    requires Sound(s, k) && t !in s.procs && 2 <= n <= 512 && n + 1 <= Clear(s.m.frames.bits)
    ensures InRange(s, k.upd) && CanCreate(s, k.upd, t, n, USER_FLAGS)
    ensures var m0 := SetSlot(s.m, k.upd, 0);
            var s' := Create(s, k.upd, t, n, USER_FLAGS);
            && CanTakePages(m0, 0, n, USER_FLAGS) && CanTakePages(m0, 0, n - 1, USER_FLAGS)
            && var m1, m2 := TakePages(m0, 0, n - 1, USER_FLAGS), TakePages(m0, 0, n, USER_FLAGS);
               && k.upd < |m1.mem| && |m1.mem[k.upd]| == 512 && k.upd < |m2.mem| && |m2.mem[k.upd]| == 512
               && s'.m == SetSlot(m2, k.upd, Slot(s.m, k.upd))
               && s'.procs == s.procs[t := Process(Slot(m1, k.upd), n)]
  {
    hide FrameOf, Invariant, OthersKept, RowsKept, TakePage, CanTake, TablesGrow, Bit, CanGrow, Grow;
    CallersFlags();
    SettledRange(s, k);
    var m0 := SetSlot(s.m, k.upd, 0);
    var k1 := CreateSound(s, k, t, n, USER_FLAGS);
    SetSlotTwice(s.m, k.upd, 0, 0);
    var k' := BeginCreate(Settled(s, k.upd), k, t, USER_FLAGS);
    GrowOnUpd(Settled(s, k.upd), k, k');
    var s1 := FirstPage(s.(m := m0), k.upd, t, USER_FLAGS);
    SlotAfterGrow(s1, k', t, n - 2);
    SlotAfterGrow(s1, k', t, n - 1);
    assert TakePages(m0, 0, n - 1, USER_FLAGS) == TakePages(s1.m, 1, n - 2, USER_FLAGS);
    assert TakePages(m0, 0, n, USER_FLAGS) == TakePages(s1.m, 1, n - 1, USER_FLAGS);
  }

  lemma SettledRange(s: System, k: Kernel)
    requires Sound(s, k)
    ensures InRange(s, k.upd) && WellSized(Settled(s, k.upd).m) && Invariant(Settled(s, k.upd), k)
  {
    hide FrameOf, Bit, Partition;
  }

  lemma SlotAfterGrow(s: System, k: Kernel, t: nat, n: nat)
    requires Invariant(s, k) && t in s.procs && k.upd < |s.m.mem| && |s.m.mem[k.upd]| == 512
    requires Slot(s.m, k.upd) == s.procs[t].pd
    requires s.procs[t].pages + n <= 512 && n <= Clear(s.m.frames.bits)
    ensures CanGrow(s, t, n, USER_FLAGS) && CanTakePages(s.m, s.procs[t].pages, n, USER_FLAGS)
    ensures var m' := TakePages(s.m, s.procs[t].pages, n, USER_FLAGS);
            && k.upd < |m'.mem| && |m'.mem[k.upd]| == 512 && Slot(m', k.upd) == s.procs[t].pd
            && Grow(s, t, n, USER_FLAGS) == System(m', s.procs[t := Process(s.procs[t].pd, s.procs[t].pages + n)])
  {
    hide FrameOf, Bit, Partition, Owned, ProcOk, Tree, TakePage, CanTake, SlotWord, OthersKept;
    CallersFlags();
    GrowKeeps(s, k, t, n, USER_FLAGS);
    GrowTakesPages(s, t, n, USER_FLAGS);
    SlotKept(s, k, t);
  }

  class PgMgr {
    const pgAllocator: PgFrAllocator
    var mem: Memory

    constructor (memMap: seq<Region>, boot: Memory)
      requires |memMap| > 0
      requires var frames := MapSize(memMap);
               0x3000 <= frames && forall f: nat | AnyRegionMarks(memMap, f) :: f < frames
      ensures pgAllocator.Valid() && fresh(pgAllocator) && fresh(pgAllocator.Repr())
      ensures Initialised(pgAllocator.State(), memMap) && mem == boot
    {
      pgAllocator := new PgFrAllocator(memMap);
      mem := boot;
    }

    ghost function Repr(): set<object>
    {
      {this} + pgAllocator.Repr()
    }

    ghost function Snapshot(): Machine
      reads Repr()
    {
      Machine(pgAllocator.State(), mem)
    }

    /** One of the three table levels of `mapPg`; returns the table the entry leads to. */
    method DescendTo(f: nat, i: nat, flags: nat) returns (child: nat)
      requires pgAllocator.Valid() && WellSized(Snapshot()) && f < |mem| && i < 512
      requires SoftPresent(mem[f][i]) || CanGrant(Snapshot().frames)
      modifies Repr()
      ensures pgAllocator.Valid()
      ensures Snapshot() == EnsureTable(old(Snapshot()), f, i, flags) && child == FrameOf(mem[f][i])
    {
      if !SoftPresent(mem[f][i]) {
        var tmpPg := pgAllocator.ReqPg();
        mem := mem[tmpPg := Zeros()];
        var entry := SetPgFlag(SetPgAddr(0, PAGE_SIZE * tmpPg), flags);
        mem := Put(mem, f, i, entry);
      }
      child := FrameOf(mem[f][i]);
    }

    method MapPg(vaddr: nat, paddr: nat, flags: nat)
      requires pgAllocator.Valid() && CanMap(Snapshot(), vaddr, flags)
      modifies Repr()
      ensures pgAllocator.Valid() && Snapshot() == MapPage(old(Snapshot()), vaddr, paddr, flags)
    {
      ghost var m := Snapshot();
      var pdt := DescendTo(ROOT, Index(vaddr, 4), flags);
      assert BuildPath(m, ROOT, 4, vaddr, flags) == BuildPath(Snapshot(), pdt, 3, vaddr, flags);
      var pd := DescendTo(pdt, Index(vaddr, 3), flags);
      assert BuildPath(m, ROOT, 4, vaddr, flags) == BuildPath(Snapshot(), pd, 2, vaddr, flags);
      var pt := DescendTo(pd, Index(vaddr, 2), flags);
      assert BuildPath(m, ROOT, 4, vaddr, flags) == (Snapshot(), pt);
      mem := Put(mem, pt, Index(vaddr, 1), SetPgFlag(SetPgAddr(0, paddr), flags));
    }
  
    /** `reqPg` and `mapPg` of the granted page. */
    method MapNewPage(i: nat, flags: nat) returns (frame: nat)
      requires pgAllocator.Valid() && CanTake(Snapshot(), i, flags)
      modifies Repr()
      ensures pgAllocator.Valid() && Snapshot() == TakePage(old(Snapshot()), i, flags)
      ensures frame == Grant(old(Snapshot()).frames)
    {
      frame := pgAllocator.ReqPg();
      MapPg(PageAddr(i), PAGE_SIZE * frame, flags);
    }

    /** The same, with the loader's test for a null page. */
    method LoadPage(vaddr: nat, ghost i: nat) returns (ok: bool)
      requires pgAllocator.Valid() && CanTake(Snapshot(), i, USER_FLAGS) && vaddr == PageAddr(i)
      modifies Repr()
      ensures pgAllocator.Valid() && ok == (Grant(old(Snapshot()).frames) != 0)
      ensures ok ==> Snapshot() == TakePage(old(Snapshot()), i, USER_FLAGS)
    {
      var lastPaddr := pgAllocator.ReqPg();
      if lastPaddr == 0 {
        return false;
      }
      MapPg(vaddr, PAGE_SIZE * lastPaddr, USER_FLAGS);
      ok := true;
    }

    /** The loop of one loadable segment, `done` pages into an image of `total` pages. */
    method LoadSegment(lastVaddr: nat, memsz: nat, pgCount: nat, ghost m: Machine, ghost done: nat, ghost total: nat)
      returns (newVaddr: Option<nat>, newCount: nat)
      requires pgAllocator.Valid() && CanTakePages(m, 0, total, USER_FLAGS) && done + PagesFor(memsz) <= total
      requires CanTakePages(m, 0, done, USER_FLAGS) && Snapshot() == TakePages(m, 0, done, USER_FLAGS)
      requires 0 < |m.frames.bits| && m.frames.bits[0]
      requires lastVaddr == PageAddr(done) && pgCount == Low8(done)
      modifies Repr()
      ensures pgAllocator.Valid() && CanTakePages(m, 0, done + PagesFor(memsz), USER_FLAGS)
      ensures Snapshot() == TakePages(m, 0, done + PagesFor(memsz), USER_FLAGS)
      ensures newVaddr == Some(PageAddr(done + PagesFor(memsz))) && newCount == Low8(done + PagesFor(memsz))
    {
      hide TakePage, TakePages, CanTakePages, CanTake, Grant, PagesFor, Low8, Inc8;
      var pg := lastVaddr;
      newCount := pgCount;
      ghost var n := done;
      while pg < lastVaddr + memsz
        invariant done <= n && pg == PageAddr(n) && (n == done || PAGE_SIZE * (n - 1 - done) < memsz)
        invariant pgAllocator.Valid() && CanTakePages(m, 0, n, USER_FLAGS)
        invariant Snapshot() == TakePages(m, 0, n, USER_FLAGS) && newCount == Low8(n)
        decreases lastVaddr + memsz - pg
      {
        PageCount(memsz, n - done);
        TakeOneMore(m, n, total, USER_FLAGS);
        FrameZeroTaken(m, n);
        newCount := Inc8(newCount);
        IncLow8(n);
        var ok := LoadPage(pg, n);
        if !ok {
          return None, newCount;
        }
        pg := pg + PAGE_SIZE;
        n := n + 1;
      }
      PageCount(memsz, n - done);
      newVaddr := Some(pg);
    }

    /** `loadPHDR` on an image without thread-local storage: the pages of all loadable segments,
      * back to back from the start of the window, whatever addresses the segments ask for. */
    method LoadPHDR(phdrs: seq<Phdr>) returns (lastVaddr: Option<nat>, estimate: nat)
      requires pgAllocator.Valid() && CanTakePages(Snapshot(), 0, ImagePages(phdrs), USER_FLAGS)
      requires 0 < |Snapshot().frames.bits| && Snapshot().frames.bits[0]
      requires forall p | p in phdrs :: p.kind != PT_TLS
      modifies Repr()
      ensures pgAllocator.Valid()
      ensures Snapshot() == TakePages(old(Snapshot()), 0, ImagePages(phdrs), USER_FLAGS)
      ensures lastVaddr == Some(PageAddr(ImagePages(phdrs))) && estimate == ImagePages(phdrs) % 256
    {
      hide TakePage, CanTake;
      ghost var m := Snapshot();
      lastVaddr, estimate := Some(USERSPACE_START_ADDR), 0;
      for i := 0 to |phdrs|
        invariant pgAllocator.Valid() && CanTakePages(m, 0, ImagePages(phdrs[..i]), USER_FLAGS)
        invariant Snapshot() == TakePages(m, 0, ImagePages(phdrs[..i]), USER_FLAGS)
        invariant lastVaddr == Some(PageAddr(ImagePages(phdrs[..i]))) && estimate == Low8(ImagePages(phdrs[..i]))
      {
        ImagePagesPrefix(phdrs, i + 1);
        assert phdrs[..i + 1][..i] == phdrs[..i];
        if phdrs[i].kind == PT_LOAD {
          lastVaddr, estimate := LoadSegment(lastVaddr.value, phdrs[i].memsz, estimate, m,
                                             ImagePages(phdrs[..i]), ImagePages(phdrs));
          if lastVaddr == None {
            return;
          }
        }
      }
      assert phdrs[..|phdrs|] == phdrs;
    }
  
    /** Lines 247-258 and 290-293: the image, the stack page, then the argument page; the
      * directory entry is read in between. */
    method MapProcessPages(upd: nat, phdrs: seq<Phdr>) returns (p: Process, estimate: nat)
      requires pgAllocator.Valid() && CanTakePages(Snapshot(), 0, ImagePages(phdrs) + 2, USER_FLAGS)
      requires 0 < |Snapshot().frames.bits| && Snapshot().frames.bits[0]
      requires forall h | h in phdrs :: h.kind != PT_TLS
      requires CanTakePages(Snapshot(), 0, ImagePages(phdrs) + 1, USER_FLAGS)
      requires var m1 := TakePages(Snapshot(), 0, ImagePages(phdrs) + 1, USER_FLAGS);
               upd < |m1.mem| && |m1.mem[upd]| == 512
      modifies Repr()
      ensures pgAllocator.Valid()
      ensures Snapshot() == TakePages(old(Snapshot()), 0, ImagePages(phdrs) + 2, USER_FLAGS)
      ensures var m1 := TakePages(old(Snapshot()), 0, ImagePages(phdrs) + 1, USER_FLAGS);
              p == Process(Slot(m1, upd), ImagePages(phdrs) + 2)
      ensures estimate == ImagePages(phdrs) % 256
    {
      hide TakePage, CanTake, TakePages, CanTakePages, ImagePages;
      ghost var n := ImagePages(phdrs);
      TakeOneMore(Snapshot(), n, n + 2, USER_FLAGS);
      TakeOneMore(Snapshot(), n + 1, n + 2, USER_FLAGS);
      var last;
      last, estimate := LoadPHDR(phdrs);
      var page := (last.value - USERSPACE_START_ADDR) / PAGE_SIZE;
      var _ := MapNewPage(page, USER_FLAGS);
      var pd := mem[upd][USER_SLOT];
      var _ := MapNewPage(page + 1, USER_FLAGS);
      p := Process(pd, page + 2);
    }

    /** The memory side of `createTask` for a process: lines 243-258, 290-293 and 324. */
    method BuildProcess(upd: nat, phdrs: seq<Phdr>, ghost w: World, ghost k: Kernel, ghost t: nat)
      returns (p: Process, estimate: nat)
      requires pgAllocator.Valid() && Snapshot() == w.sys.m && Sound(w.sys, k) && upd == k.upd
      requires ProcessRuns.Enabled(w, CreateProcess(t, ImagePages(phdrs) + 2))
      requires 0 < |w.sys.m.frames.bits| && w.sys.m.frames.bits[0] && forall h | h in phdrs :: h.kind != PT_TLS
      modifies Repr()
      ensures pgAllocator.Valid() && InRange(w.sys, upd) && estimate == ImagePages(phdrs) % 256
      ensures Next(w, upd, CreateProcess(t, ImagePages(phdrs) + 2), w.(sys := System(Snapshot(), w.sys.procs[t := p])))
    {
      hide FrameOf, Bit, Invariant, TakePages, CanTakePages, Create, CanCreate, ImagePages;
      SettledRange(w.sys, k);
      CreateIsLoad(w.sys, k, t, ImagePages(phdrs) + 2);
      var oldPD := mem[upd][USER_SLOT];
      mem := Put(mem, upd, USER_SLOT, 0);
      p, estimate := MapProcessPages(upd, phdrs);
      mem := Put(mem, upd, USER_SLOT, oldPD);
    }

    /** Lines 374-376 and 400-439: an argument page if there are arguments, then two pages. */
    method MapThreadPages(first: nat, withArgs: bool) returns (pages: nat)
      requires pgAllocator.Valid() && CanTakePages(Snapshot(), first, ThreadPages(withArgs), USER_FLAGS)
      modifies Repr()
      ensures pgAllocator.Valid() && pages == first + ThreadPages(withArgs)
      ensures Snapshot() == TakePages(old(Snapshot()), first, ThreadPages(withArgs), USER_FLAGS)
    {
      hide TakePage, CanTake, TakePages, CanTakePages;
      pages := first;
      FirstOfPages(Snapshot(), pages, ThreadPages(withArgs), USER_FLAGS);
      if withArgs {
        var _ := MapNewPage(pages, USER_FLAGS);
        pages := pages + 1;
        FirstOfPages(Snapshot(), pages, 2, USER_FLAGS);
      }
      var _ := MapNewPage(pages, USER_FLAGS);
      pages := pages + 1;
      FirstOfPages(Snapshot(), pages, 1, USER_FLAGS);
      var _ := MapNewPage(pages, USER_FLAGS);
      pages := pages + 1;
      NoPages(Snapshot(), pages, USER_FLAGS);
    }

    /** The memory side of `createTask` for a thread: install the table, map the pages. */
    method BuildThread(upd: nat, p: Process, withArgs: bool, ghost w: World, ghost k: Kernel, ghost t: nat)
      returns (p': Process)
      requires pgAllocator.Valid() && Snapshot() == w.sys.m && Sound(w.sys, k) && upd == k.upd
      requires ProcessRuns.Enabled(w, CreateThread(t, withArgs)) && p == w.sys.procs[t]
      modifies Repr()
      ensures pgAllocator.Valid() && InRange(w.sys, upd)
      ensures Next(w, upd, CreateThread(t, withArgs), w.(sys := System(Snapshot(), w.sys.procs[t := p'])))
    {
      hide FrameOf, Bit, Invariant, TakePages, CanTakePages, CanGrow, Grow;
      SettledRange(w.sys, k);
      ThreadIsThreePages(w.sys, k, t, withArgs);
      mem := Put(mem, upd, USER_SLOT, p.pd);
      var pages := MapThreadPages(p.pages, withArgs);
      p' := Process(p.pd, pages);
    }

    /** The same for a kernel thread, from the kernel's own header: null entry, two pages
      * without the user flag, and the new entry goes into the thread's copy of the header. */
    method BuildKernelThread(upd: nat, first: nat, ghost w: World, ghost t: nat) returns (pd: nat, pages: nat)
      requires pgAllocator.Valid() && Snapshot() == w.sys.m && first == w.kernelPages
      requires CanAddThread(w.sys.m, upd, first)
      requires InRange(w.sys.(m := AddThread(w.sys.m, upd, first)), upd)
      modifies Repr()
      ensures pgAllocator.Valid() && InRange(w.sys, upd)
      ensures Next(w, upd, KernelThread(t), World(w.sys.(m := Snapshot()), pages, w.threads[t := KThread(pd, first)]))
    {
      hide TakePage, CanTake;
      mem := Put(mem, upd, USER_SLOT, 0);
      pages := first;
      var _ := MapNewPage(pages, KERNEL_FLAGS);
      pages := pages + 1;
      var _ := MapNewPage(pages, KERNEL_FLAGS);
      pages := pages + 1;
      pd := mem[upd][USER_SLOT];
    }

    /** Lines 141-144 of the constructor: memory from 4 MiB on is mapped to itself. */
    method MapIdentity(memSize: nat, ghost n: nat)
      requires pgAllocator.Valid() && KERNEL_USED_MEM < memSize && CanMapRange(Snapshot(), FIRST_PAGE, n)
      requires n == (memSize - KERNEL_USED_MEM + PAGE_SIZE - 1) / PAGE_SIZE
      modifies Repr()
      ensures pgAllocator.Valid() && Snapshot() == MapRange(old(Snapshot()), FIRST_PAGE, n)
    {
      hide CanMap, MapPage;
      ghost var m := Snapshot();
      var pg := KERNEL_USED_MEM;
      ghost var i := 0;
      while pg < memSize
        invariant i <= n && pg == PAGE_SIZE * (FIRST_PAGE + i) && pgAllocator.Valid()
        invariant CanMapRange(Snapshot(), FIRST_PAGE + i, n - i)
        invariant MapRange(Snapshot(), FIRST_PAGE + i, n - i) == MapRange(m, FIRST_PAGE, n)
        decreases n - i
      {
        MapPg(pg, pg, KERNEL_FLAGS);
        pg := pg + PAGE_SIZE;
        i := i + 1;
      }
    }

    /** Lines 149-155: the user flag on the way to the user directory, and its entry nulled. */
    method OpenUserWindow() returns (userPD: nat)
      requires ROOT < |mem| && (forall g | 0 <= g < |mem| :: |mem[g]| == 512) && ROOT != FrameOf(mem[ROOT][0])
      requires FrameOf(mem[ROOT][0]) < |mem| && FrameOf(mem[FrameOf(mem[ROOT][0])][1]) < |mem|
      modifies this
      ensures (mem, userPD) == OpenWindow(old(mem))
    {
      hide FrameOf, Bit, SetPgFlag;
      UserFlagKeepsEntry(mem[ROOT][0]);
      mem := Put(mem, ROOT, 0, SetPgFlag(mem[ROOT][0], PDE_U));
      userPD := FrameOf(mem[ROOT][0]);
      UserFlagKeepsEntry(mem[userPD][1]);
      mem := Put(mem, userPD, 1, SetPgFlag(mem[userPD][1], PDE_U));
      userPD := FrameOf(mem[userPD][1]);
      mem := Put(mem, userPD, USER_SLOT, 0);
    }

    /** The constructor from line 141 on. */
    method MapKernel(memSize: nat, ghost n: nat, ghost tables: Tables) returns (userPD: nat)
      requires pgAllocator.Valid() && Good(Snapshot(), tables) && KERNEL_USED_MEM < memSize <= 0x1000000000000
      requires n == (memSize - KERNEL_USED_MEM + PAGE_SIZE - 1) / PAGE_SIZE
      requires 3 * (n / 512 + 3) <= Clear(Snapshot().frames.bits)
      modifies Repr()
      ensures pgAllocator.Valid() && Booted(old(Snapshot()), n, Snapshot(), userPD)
    {
      hide FrameOf, Bit, CanMap, MapPage, Tree, CanMapRange, MapRange, OpenWindow;
      ghost var m := Snapshot();
      ghost var tables2 := MappedGood(m, tables, n);
      MapIdentity(memSize, n);
      MapPg(USERSPACE_START_ADDR, USERSPACE_START_ADDR, USER_FLAGS);
      OpenWindowGood(Snapshot(), tables2);
      userPD := OpenUserWindow();
    }

    /** Pages from the last down. */
    method FreePages(row: seq<nat>, n: nat)
      requires pgAllocator.Valid() && n <= |row|
      requires forall i | 0 <= i < n :: row[i] / PAGE_SIZE < |pgAllocator.State().bits|
      modifies pgAllocator.Repr()
      ensures pgAllocator.Valid() && pgAllocator.State() == ReleasePages(old(pgAllocator.State()), row, n)
    {
      ghost var fr := pgAllocator.State();
      var i := n;
      while i > 0
        invariant 0 <= i <= n && pgAllocator.Valid() && |pgAllocator.State().bits| == |fr.bits|
        invariant ReleasePages(pgAllocator.State(), row, i) == ReleasePages(fr, row, n)
      {
        i := i - 1;
        pgAllocator.FreePg(row[i] / PAGE_SIZE);
      }
    }

    /** The frames `freeTask` releases: the pages, then the page table. */
    method FreeTask(p: Process, pid: int, tid: nat)
      requires pgAllocator.Valid() && CanFree(Snapshot(), p)
      modifies pgAllocator.Repr()
      ensures pgAllocator.Valid()
      ensures Snapshot() == if pid == tid then FreeFrames(old(Snapshot()), p) else old(Snapshot())
    {
      hide FrameOf;
      if pid == tid {
        var pt := FrameOf(p.pd);
        FreePages(mem[pt], p.pages);
        pgAllocator.FreePg(pt);
      }
    }
  }

  lemma ThreadIsThreePages(s: System, k: Kernel, t: nat, withArgs: bool)
    requires Sound(s, k) && InRange(s, k.upd) && t in s.procs
    requires s.procs[t].pages + ThreadPages(withArgs) <= 512 && ThreadPages(withArgs) <= Clear(s.m.frames.bits)
    ensures var s0 := Install(s, k.upd, s.procs[t].pd);
            var n := ThreadPages(withArgs);
            && CanGrow(s0, t, n, USER_FLAGS) && CanTakePages(s0.m, s.procs[t].pages, n, USER_FLAGS)
            && Grow(s0, t, n, USER_FLAGS) ==
               System(TakePages(s0.m, s.procs[t].pages, n, USER_FLAGS),
                      s.procs[t := Process(s.procs[t].pd, s.procs[t].pages + n)])
  {
    hide FrameOf, Bit, Invariant, SlotWord, Sound, Grow, CanGrow, TakePages, CanTakePages;
    TableApart(s, k, t);
    InstallKeeps(s, k, s.procs[t].pd);
    SlotAfterGrow(Install(s, k.upd, s.procs[t].pd), k, t, ThreadPages(withArgs));
  }
}
