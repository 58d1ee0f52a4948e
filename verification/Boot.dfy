/** From the tables the boot code leaves (src/boot/enablePaging.asm) to the first state of the
  * running kernel: the `PgMgr` constructor of src/kernel/memory/paging/paging.cpp. */
module Boot {
  import opened Frames
  import opened PageEntries
  import opened PageTables
  import opened UserSpace
  import opened Lifecycle
  import opened ProcessRuns

  // ---------- The boot code's tables ----------

  const PDPT0 := 2
  const PDT0 := 3
  const PT0 := 4
  const PT1 := 5

  /** Frames 1 to 4 are cleared and then filled. The second page table is not cleared first,
    * and only the low halves of its entries are written. */
  ghost predicate BootTables(mem: Memory)
  {
    && PT1 < |mem| && (forall f | 0 <= f < |mem| :: |mem[f]| == 512)
    && mem[ROOT] == Zeros()[0 := 4096 * PDPT0 + 3]
    && mem[PDPT0] == Zeros()[0 := 4096 * PDT0 + 3]
    && mem[PDT0] == Zeros()[0 := 4096 * PT0 + 3][1 := 4096 * PT1 + 3]
    && (forall i | 0 <= i < 512 :: mem[PT0][i] == 4096 * i + 3)
    && (forall i | 0 <= i < 512 :: mem[PT1][i] % 0x1_0000_0000 == 4096 * (512 + i) + 3)
  }

  function BootNodes(): Tables
  {
    map[ROOT := Node(4, 0, 0), PDPT0 := Node(3, ROOT, 0), PDT0 := Node(2, PDPT0, 0),
        PT0 := Node(1, PDT0, 0), PT1 := Node(1, PDT0, 1)]
  }

  lemma PlainEntry(f: nat)
    ensures var e := 4096 * f + 3;
            && HardPresent(e) && SoftPresent(e) && !Bit(e, PDE_S) && !Bit(e, USER_BIT)
            && (f < FIELD ==> FrameOf(e) == f)
  {
    FlagBits(f, 3, 2);
    KernelFlags();
    FlagBits(f, 3, 0);
    FlagBits(f, 3, 1);
    FlagBits(f, 3, 7);
    if f < FIELD {
      FieldsOfSum(f, 3);
    }
  }

  /** An entry whose low half is plain is present to both tests, whatever its high half. */
  lemma LowHalf(e: nat, f: nat)
    requires e % 0x1_0000_0000 == 4096 * f + 3
    ensures HardPresent(e) && SoftPresent(e)
  {
    PlainEntry(0x100000 * (e / 0x1_0000_0000) + f);
  }

  /** The boot code's tables are a tree in frames that the allocator has marked. */
  lemma BootTablesGood(memMap: seq<Region>, fr: FrameState, mem: Memory)
    requires |memMap| > 0 && Initialised(fr, memMap) && BootTables(mem) && |mem| == |fr.bits| <= FIELD
    ensures Good(Machine(fr, mem), BootNodes()) && Shut(Machine(fr, mem), BootNodes())
  {
    hide FrameOf, Bit;
    ZeroShut();
    var m, tables := Machine(fr, mem), BootNodes();
    assert forall f | 1 <= f <= 5 :: KernelFrame(f) && fr.bits[f];
    ZeroEntry();
    PlainEntry(PDPT0);
    PlainEntry(PDT0);
    PlainEntry(PT0);
    PlainEntry(PT1);
    forall f, i | f in tables && 0 <= i < 512
      ensures EntryIn(m, tables, f, i)
    {
      if f == PT0 {
        PlainEntry(i);
      } else if f == PT1 {
        LowHalf(mem[f][i], 512 + i);
      }
    }
  }

  // ---------- The identity mapping ----------

  /** Pages first, first + 1, .. first + n - 1 mapped to themselves, in that order. */
  ghost predicate CanMapRange(m: Machine, first: nat, n: nat)
    decreases n
  {
    n > 0 ==>
      && CanMap(m, PAGE_SIZE * first, KERNEL_FLAGS)
      && CanMapRange(MapPage(m, PAGE_SIZE * first, PAGE_SIZE * first, KERNEL_FLAGS), first + 1, n - 1)
  }

  ghost function MapRange(m: Machine, first: nat, n: nat): Machine
    requires CanMapRange(m, first, n)
    decreases n
  {
    if n == 0 then m
    else MapRange(MapPage(m, PAGE_SIZE * first, PAGE_SIZE * first, KERNEL_FLAGS), first + 1, n - 1)
  }

  /** The loop maps exactly its pages to themselves and leaves every other translation. */
  lemma {:induction false} MapRangeTranslates(m: Machine, tables: Tables, first: nat, n: nat)
    returns (tables': Tables)
    requires Good(m, tables) && CanMapRange(m, first, n) && first + n <= 0x1000000000
    ensures var m' := MapRange(m, first, n);
            && Good(m', tables') && |m'.mem| == |m.mem| && (Shut(m, tables) ==> Shut(m', tables'))
            && (forall v: nat :: Translate(m'.mem, v) ==
                  if first <= PageOf(v) < first + n then Page(PageOf(v), 3) else Translate(m.mem, v))
    decreases n
  {
    hide FrameOf, Bit, MakeEntry, CanMap, MapPage, Tree, Walk, ShutBut;
    if n == 0 {
      tables' := tables;
    } else {
      KernelFlags();
      var a := PAGE_SIZE * first;
      var tables1 := MapPageChangesOneTranslation(m, tables, a, a, KERNEL_FLAGS);
      var m1 := MapPage(m, a, a, KERNEL_FLAGS);
      if Shut(m, tables) {
        MapPageShut(m, tables, a, a, KERNEL_FLAGS, |m.mem|, 0);
      }
      tables' := MapRangeTranslates(m1, tables1, first + 1, n - 1);
      assert PageOf(a) == first == a / PAGE_SIZE % FIELD;
    }
  }

  // ---------- Frames for the tables ----------

  /** Nothing is missing on a walk that arrives. */
  lemma {:induction false} ReachedNothingMissing(m: Machine, tables: Tables, f: nat, v: nat)
    requires Good(m, tables) && f in tables && Reach(m.mem, f, tables[f].level, v).Some?
    ensures Missing(m.mem, f, tables[f].level, v) == 0
    decreases tables[f].level
  {
    hide FrameOf, Bit;
    var level := tables[f].level;
    if level > 1 {
      assert EntryIn(m, tables, f, Index(v, level));
      ReachedNothingMissing(m, tables, FrameOf(m.mem[f][Index(v, level)]), v);
    }
  }

  lemma {:induction false} MissingAtMost(mem: Memory, f: nat, level: nat, v: nat)
    requires 1 <= level <= 4 && f < |mem| && forall g | 0 <= g < |mem| :: |mem[g]| == 512
    ensures Missing(mem, f, level, v) <= level - 1
    decreases level
  {
    hide FrameOf, Bit;
    if level > 1 && FrameOf(mem[f][Index(v, level)]) < |mem| {
      MissingAtMost(mem, FrameOf(mem[f][Index(v, level)]), level - 1, v);
    }
  }

  /** Pages of the same 2 MiB block share all tables. */
  lemma SameBlock(first: nat)
    requires (first + 1) % 512 != 0
    ensures forall l | 2 <= l <= 4 :: Index(PAGE_SIZE * first, l) == Index(PAGE_SIZE * (first + 1), l)
  {
    var a, b := PAGE_SIZE * first, PAGE_SIZE * (first + 1);
    assert a / 0x200000 == first / 512 && b / 0x200000 == (first + 1) / 512 == first / 512;
    Deeper(a, b);
  }

  lemma Deeper(a: nat, b: nat)
    requires a / 0x200000 == b / 0x200000
    ensures a / 0x40000000 == b / 0x40000000 && a / 0x8000000000 == b / 0x8000000000
  {
    assert a / 0x40000000 == a / 0x200000 / 512 && b / 0x40000000 == b / 0x200000 / 512;
    assert a / 0x8000000000 == a / 0x40000000 / 512 && b / 0x8000000000 == b / 0x40000000 / 512;
  }

  /** Frames that suffice: three for every 2 MiB block that is entered, none for the first one
    * if its tables are already there. */
  ghost function Need(m: Machine, first: nat, n: nat): nat
    requires WellSized(m) && ROOT < |m.mem| && n > 0
  {
    (if Reach(m.mem, ROOT, 4, PAGE_SIZE * first).Some? then 0 else 3) + 3 * ((first + n - 1) / 512 - first / 512)
  }

  /** With that many free frames the loop runs through. */
  lemma {:induction false} RangeFits(m: Machine, tables: Tables, first: nat, n: nat)
    requires Good(m, tables) && n > 0 && Need(m, first, n) <= Clear(m.frames.bits)
    ensures CanMapRange(m, first, n)
    ensures Clear(m.frames.bits) - Need(m, first, n) <= Clear(MapRange(m, first, n).frames.bits)
    decreases n
  {
    hide FrameOf, Bit, MakeEntry, BuildPath, CanBuild, Tree;
    KernelFlags();
    var a := PAGE_SIZE * first;
    FitsOne(m, tables, a);
    var m1 := MapPage(m, a, a, KERNEL_FLAGS);
    if n > 1 {
      var tables1 := MapPageReaches(m, tables, a, a, KERNEL_FLAGS);
      RootThere(m1, tables1);
      NextNeed(m1, first, n);
      RangeFits(m1, tables1, first + 1, n - 1);
    } else {
      assert MapRange(m, first, 1) == m1;
    }
  }

  lemma RootThere(m: Machine, tables: Tables)
    requires Good(m, tables)
    ensures ROOT < |m.mem|
  {
  }

  lemma NextNeed(m1: Machine, first: nat, n: nat)
    requires WellSized(m1) && ROOT < |m1.mem| && n > 1 && Reach(m1.mem, ROOT, 4, PAGE_SIZE * first).Some?
    ensures Need(m1, first + 1, n - 1) <= 3 * ((first + n - 1) / 512 - first / 512)
  {
    hide FrameOf, Bit;
    if (first + 1) % 512 != 0 {
      SameBlock(first);
      ReachFollowsIndices(m1.mem, ROOT, 4, PAGE_SIZE * first, PAGE_SIZE * (first + 1));
    }
  }

  lemma FitsOne(m: Machine, tables: Tables, v: nat)
    requires Good(m, tables)
    requires (if Reach(m.mem, ROOT, 4, v).Some? then 0 else 3) <= Clear(m.frames.bits)
    ensures CanMap(m, v, KERNEL_FLAGS)
    ensures Clear(MapPage(m, v, v, KERNEL_FLAGS).frames.bits) >=
            Clear(m.frames.bits) - if Reach(m.mem, ROOT, 4, v).Some? then 0 else 3
  {
    hide FrameOf, Bit, MakeEntry;
    KernelFlags();
    MissingAtMost(m.mem, ROOT, 4, v);
    if Reach(m.mem, ROOT, 4, v).Some? {
      ReachedNothingMissing(m, tables, ROOT, v);
    }
    EnoughFrames(m, tables, ROOT, v, KERNEL_FLAGS);
  }

  lemma MapPageReaches(m: Machine, tables: Tables, v: nat, paddr: nat, flags: nat) returns (tables': Tables)
    requires Good(m, tables) && FlagsOk(flags) && CanMap(m, v, flags)
    ensures tables' == PathTables(m, tables, ROOT, v, flags)
    ensures Good(MapPage(m, v, paddr, flags), tables') && Reach(MapPage(m, v, paddr, flags).mem, ROOT, 4, v).Some?
  {
    hide FrameOf, Bit, MakeEntry;
    tables' := BuildPathKeeps(m, tables, ROOT, v, flags);
    var (m1, pt) := BuildPath(m, ROOT, 4, v, flags);
    EntryRoundTrip(paddr, flags);
    PutLeafKeepsTree(m1, tables', pt, Index(v, 1), MakeEntry(paddr, flags));
    PutLeafTranslates(m1, tables', pt, Index(v, 1), MakeEntry(paddr, flags), ROOT, v);
  }

  // ---------- Opening the user window ----------

  /** Rewriting one table entry with a word the walk cannot tell apart keeps the tree. */
  lemma FlagKeepsTree(m: Machine, tables: Tables, f: nat, i: nat)
    requires Good(m, tables) && f in tables && i < 512
    ensures Good(m.(mem := Put(m.mem, f, i, SetPgFlag(m.mem[f][i], PDE_U))), tables)
  {
    hide FrameOf, Bit, SetPgFlag;
    UserFlagKeepsEntry(m.mem[f][i]);
    var m' := m.(mem := Put(m.mem, f, i, SetPgFlag(m.mem[f][i], PDE_U)));
    forall g, j | g in tables && 0 <= j < 512
      ensures EntryIn(m', tables, g, j)
    {
      assert EntryIn(m, tables, g, j);
    }
  }

  /** Lines 149-155 of the `PgMgr` constructor, once the window start has been mapped. */
  function OpenWindow(mem: Memory): (r: (Memory, nat))
    requires ROOT < |mem| && forall g | 0 <= g < |mem| :: |mem[g]| == 512
    requires FrameOf(mem[ROOT][0]) < |mem| && FrameOf(mem[FrameOf(mem[ROOT][0])][1]) < |mem|
    requires ROOT != FrameOf(mem[ROOT][0])
  {
    var mem1 := Put(mem, ROOT, 0, SetPgFlag(mem[ROOT][0], PDE_U));
    var pdt := FrameOf(mem[ROOT][0]);
    var mem2 := Put(mem1, pdt, 1, SetPgFlag(mem1[pdt][1], PDE_U));
    var upd := FrameOf(mem[pdt][1]);
    (Put(mem2, upd, USER_SLOT, 0), upd)
  }

  /** The way to the window exists once its first page is mapped. */
  lemma WindowReached(m: Machine, tables: Tables, v: nat)
    requires Good(m, tables) && v == USERSPACE_START_ADDR && Reach(m.mem, ROOT, 4, v).Some?
    ensures HardPresent(m.mem[ROOT][0])
    ensures var pdt := FrameOf(m.mem[ROOT][0]);
            && pdt in tables && tables[pdt].level == 3 && HardPresent(m.mem[pdt][1])
            && var upd := FrameOf(m.mem[pdt][1]);
               upd in tables && tables[upd].level == 2
  {
    hide FrameOf, Bit;
    WindowIndices(0);
    assert EntryIn(m, tables, ROOT, 0);
    var pdt := FrameOf(m.mem[ROOT][0]);
    assert EntryIn(m, tables, pdt, 1);
    assert Reach(m.mem, ROOT, 4, v) == Reach(m.mem, pdt, 3, v);
  }

  lemma OpenWindowGood(m: Machine, tables: Tables)
    requires Good(m, tables) && Reach(m.mem, ROOT, 4, USERSPACE_START_ADDR).Some?
    ensures FrameOf(m.mem[ROOT][0]) < |m.mem| && FrameOf(m.mem[FrameOf(m.mem[ROOT][0])][1]) < |m.mem|
    ensures ROOT != FrameOf(m.mem[ROOT][0])
    ensures var (mem', upd) := OpenWindow(m.mem);
            var m' := m.(mem := mem');
            Good(m', tables) && WindowReady(m', tables, upd) && Slot(m', upd) == 0
  {
    hide FrameOf, Bit, SetPgFlag;
    WindowReached(m, tables, USERSPACE_START_ADDR);
    var pdt := FrameOf(m.mem[ROOT][0]);
    var upd := FrameOf(m.mem[pdt][1]);
    FlagKeepsTree(m, tables, ROOT, 0);
    UserFlagKeepsEntry(m.mem[ROOT][0]);
    UserFlagKeepsEntry(m.mem[pdt][1]);
    var m1 := m.(mem := Put(m.mem, ROOT, 0, SetPgFlag(m.mem[ROOT][0], PDE_U)));
    FlagKeepsTree(m1, tables, pdt, 1);
    var m2 := m1.(mem := Put(m1.mem, pdt, 1, SetPgFlag(m1.mem[pdt][1], PDE_U)));
    var k := Kernel(tables, upd, {});
    NullSlot(k);
    SetSlotGood(m2, k, 0);
  }

  /** Setting the user flag above the leaves changes no translation. */
  lemma {:induction false} FlagKeepsWalk(m: Machine, tables: Tables, f: nat, i: nat, g: nat, v: nat)
    requires Good(m, tables) && f in tables && tables[f].level > 1 && i < 512 && g in tables
    ensures Walk(Put(m.mem, f, i, SetPgFlag(m.mem[f][i], PDE_U)), g, tables[g].level, v) ==
            Walk(m.mem, g, tables[g].level, v)
    decreases tables[g].level
  {
    hide FrameOf, Bit, SetPgFlag;
    UserFlagKeepsEntry(m.mem[f][i]);
    var level := tables[g].level;
    var e := m.mem[g][Index(v, level)];
    assert EntryIn(m, tables, g, Index(v, level));
    if level > 1 && HardPresent(e) {
      FlagKeepsWalk(m, tables, f, i, FrameOf(e), v);
    }
  }

  /** Clearing the directory entry of the window makes its pages absent and changes no other. */
  lemma ClearSlotTranslates(m: Machine, k: Kernel, v: nat)
    requires Good(m, k.tables) && WindowReady(m, k.tables, k.upd)
    ensures Translate(SetSlot(m, k.upd, 0).mem, v) ==
            if PageOf(v) / 512 == WINDOW_BLOCK then Absent else Translate(m.mem, v)
  {
    hide FrameOf, Bit;
    ZeroEntry();
    WindowBlock(v);
    var m' := SetSlot(m, k.upd, 0);
    var pdt := FrameOf(m.mem[ROOT][0]);
    assert EntryIn(m, k.tables, ROOT, 0) && EntryIn(m, k.tables, pdt, 1);
    if PageOf(v) / 512 == WINDOW_BLOCK {
      assert Walk(m'.mem, k.upd, 2, v) == Absent;
      assert Walk(m'.mem, pdt, 3, v) == Absent;
    } else {
      NotThroughSlot(m, k, 0, ROOT, v);
    }
  }

  // ---------- The first state ----------

  /** The pages the constructor's loop visits. */
  function IdentityPages(memMap: seq<Region>): nat
    requires |memMap| > 0 && KERNEL_USED_MEM <= MemSize(memMap)
  {
    (MemSize(memMap) - KERNEL_USED_MEM + PAGE_SIZE - 1) / PAGE_SIZE
  }

  const FIRST_PAGE := KERNEL_USED_MEM / PAGE_SIZE

  ghost predicate CanBoot(m: Machine, n: nat)
  {
    && CanMapRange(m, FIRST_PAGE, n)
    && CanMap(MapRange(m, FIRST_PAGE, n), USERSPACE_START_ADDR, USER_FLAGS)
  }

  /** Lines 142-147 of the constructor. */
  ghost function Mapped(m: Machine, n: nat): Machine
    requires CanBoot(m, n)
  {
    MapPage(MapRange(m, FIRST_PAGE, n), USERSPACE_START_ADDR, USERSPACE_START_ADDR, USER_FLAGS)
  }

  /** The machine and MMU::userPD after the whole constructor. */
  ghost predicate Booted(m: Machine, n: nat, m': Machine, upd: nat)
  {
    && CanBoot(m, n)
    && var m1 := Mapped(m, n);
       && ROOT < |m1.mem| && FrameOf(m1.mem[ROOT][0]) < |m1.mem|
       && FrameOf(m1.mem[FrameOf(m1.mem[ROOT][0])][1]) < |m1.mem| && ROOT != FrameOf(m1.mem[ROOT][0])
       && (m'.mem, upd) == OpenWindow(m1.mem) && m'.frames == m1.frames
  }

  function FirstWorld(m: Machine): World
  {
    World(System(m, map[]), 0, map[])
  }

  /** Opening the window clears its pages and keeps every other translation. */
  lemma OpenWindowTranslates(m: Machine, tables: Tables, v: nat)
    requires Good(m, tables) && Reach(m.mem, ROOT, 4, USERSPACE_START_ADDR).Some?
    ensures FrameOf(m.mem[ROOT][0]) < |m.mem| && FrameOf(m.mem[FrameOf(m.mem[ROOT][0])][1]) < |m.mem|
    ensures ROOT != FrameOf(m.mem[ROOT][0])
    ensures Good(m.(mem := OpenWindow(m.mem).0), tables)
    ensures Translate(OpenWindow(m.mem).0, v) ==
            if PageOf(v) / 512 == WINDOW_BLOCK then Absent else Translate(m.mem, v)
  {
    hide FrameOf, Bit, SetPgFlag, PageOf, Walk;
    OpenWindowGood(m, tables);
    var k, m2 := FlagsSet(m, tables, v);
    ClearSlotTranslates(m2, k, v);
  }

  lemma FlagsSet(m: Machine, tables: Tables, v: nat) returns (k: Kernel, m2: Machine)
    requires Good(m, tables) && Reach(m.mem, ROOT, 4, USERSPACE_START_ADDR).Some?
    requires FrameOf(m.mem[ROOT][0]) < |m.mem| && FrameOf(m.mem[FrameOf(m.mem[ROOT][0])][1]) < |m.mem|
    requires ROOT != FrameOf(m.mem[ROOT][0])
    ensures k.tables == tables && Good(m2, tables) && WindowReady(m2, tables, k.upd)
    ensures OpenWindow(m.mem) == (SetSlot(m2, k.upd, 0).mem, k.upd) && Translate(m2.mem, v) == Translate(m.mem, v)
  {
    hide FrameOf, Bit, SetPgFlag, Walk;
    WindowReached(m, tables, USERSPACE_START_ADDR);
    var pdt := FrameOf(m.mem[ROOT][0]);
    var upd := FrameOf(m.mem[pdt][1]);
    UserFlagKeepsEntry(m.mem[ROOT][0]);
    UserFlagKeepsEntry(m.mem[pdt][1]);
    FlagKeepsTree(m, tables, ROOT, 0);
    FlagKeepsWalk(m, tables, ROOT, 0, ROOT, v);
    var m1 := m.(mem := Put(m.mem, ROOT, 0, SetPgFlag(m.mem[ROOT][0], PDE_U)));
    FlagKeepsTree(m1, tables, pdt, 1);
    FlagKeepsWalk(m1, tables, pdt, 1, ROOT, v);
    m2 := m1.(mem := Put(m1.mem, pdt, 1, SetPgFlag(m1.mem[pdt][1], PDE_U)));
    k := Kernel(tables, upd, {});
  }

  /** With no process yet, everything in use is the kernel's. */
  lemma FirstWorldOk(m: Machine, tables: Tables)
    requires Good(m, tables) && Reach(m.mem, ROOT, 4, USERSPACE_START_ADDR).Some?
    ensures FrameOf(m.mem[ROOT][0]) < |m.mem| && FrameOf(m.mem[FrameOf(m.mem[ROOT][0])][1]) < |m.mem|
    ensures ROOT != FrameOf(m.mem[ROOT][0])
    ensures var (mem', upd) := OpenWindow(m.mem);
            ShutBut(m, tables, upd, USER_SLOT) ==>
              exists k: Kernel :: k.upd == upd && WorldOk(FirstWorld(m.(mem := mem')), k)
  {
    hide FrameOf, Bit, SetPgFlag, OpenWindow, ShutBut;
    OpenWindowGood(m, tables);
    OpenWindowShut(m, tables);
    var (mem', upd) := OpenWindow(m.mem);
    var s := System(m.(mem := mem'), map[]);
    var base := set x | 0 <= x < |s.m.frames.bits| && s.m.frames.bits[x];
    var k := Kernel(tables, upd, base);
    NullSlot(k);
    assert Invariant(s, k);
    InvariantIsSound(s, k);
    if ShutBut(m, tables, upd, USER_SLOT) {
      assert WorldOk(FirstWorld(m.(mem := mem')), k);
    }
  }

  /** Opening the window writes to no other directory entry. */
  lemma OpenWindowShut(m: Machine, tables: Tables)
    requires Good(m, tables) && Reach(m.mem, ROOT, 4, USERSPACE_START_ADDR).Some?
    requires FrameOf(m.mem[ROOT][0]) < |m.mem| && FrameOf(m.mem[FrameOf(m.mem[ROOT][0])][1]) < |m.mem|
    requires ROOT != FrameOf(m.mem[ROOT][0])
    ensures var (mem', upd) := OpenWindow(m.mem);
            ShutBut(m, tables, upd, USER_SLOT) ==> ShutBut(m.(mem := mem'), tables, upd, USER_SLOT)
  {
    hide FrameOf, Bit, SetPgFlag;
    WindowReached(m, tables, USERSPACE_START_ADDR);
    var (mem', upd) := OpenWindow(m.mem);
    var m' := m.(mem := mem');
    if ShutBut(m, tables, upd, USER_SLOT) {
      forall f, i: nat | f in tables && tables[f].level == 2 && i < 512 && !(f == upd && i == USER_SLOT)
        ensures ShutAt(m', f, i)
      {
        assert ShutAt(m, f, i);
      }
    }
  }

  /** From the allocator's first state and the boot code's tables to the first state of every
    * run: with enough free frames the constructor runs through and leaves the world in order,
    * with every page of memory at itself, except for the user window, which is absent, and
    * nothing open to user code. */
  lemma BootInvariant(memMap: seq<Region>, fr: FrameState, mem: Memory)
    requires |memMap| > 0 && Initialised(fr, memMap) && BootTables(mem) && |mem| == |fr.bits| <= FIELD
    requires KERNEL_USED_MEM < MemSize(memMap) <= 0x1000000000000
    requires 3 * (IdentityPages(memMap) / 512 + 3) <= Clear(fr.bits)
    ensures var m, n := Machine(fr, mem), IdentityPages(memMap);
            exists m': Machine, k: Kernel ::
              && Booted(m, n, m', k.upd) && WorldOk(FirstWorld(m'), k) && BootView(MemSize(memMap), m')
  {
    hide FrameOf, Bit, SetPgFlag, MakeEntry, OpenWindow, CanMap, MapPage, Tree, WorldOk, Initialised;
    hide CanMapRange, MapRange, ShutBut, PageOf, Walk, UserWalk, IdentityPages, BootTables;
    var m, n := Machine(fr, mem), IdentityPages(memMap);
    BootTablesGood(memMap, fr, mem);
    PageBounds(memMap);
    var tables2 := MappedGood(m, BootNodes(), n);
    var m2 := Mapped(m, n);
    RootThere(m2, tables2);
    FirstWorldOk(m2, tables2);
    WindowDirectory(m2, tables2);
    var (mem', upd) := OpenWindow(m2.mem);
    var m' := m2.(mem := mem');
    var k: Kernel :| k.upd == upd && WorldOk(FirstWorld(m'), k);
    assert Booted(m, n, m', k.upd);
    OpenWindowGood(m2, tables2);
    RootThere(m', tables2);
    forall v: nat
      ensures SeenAfterBoot(MemSize(memMap), m', v)
    {
      OpenWindowTranslates(m2, tables2, v);
      BootTranslates(mem, v);
      LastPage(memMap, PageOf(v));
      NothingOpen(m', k, v);
    }
    assert BootView(MemSize(memMap), m');
  }

  lemma PageBounds(memMap: seq<Region>)
    requires |memMap| > 0 && KERNEL_USED_MEM < MemSize(memMap) <= 0x1000000000000
    ensures 0 < IdentityPages(memMap) && FIRST_PAGE + IdentityPages(memMap) <= 0x1000000000
  {
  }

  lemma LastPage(memMap: seq<Region>, page: nat)
    requires |memMap| > 0 && KERNEL_USED_MEM < MemSize(memMap)
    ensures page < FIRST_PAGE + IdentityPages(memMap) <==> PAGE_SIZE * page < MemSize(memMap)
    ensures FIRST_PAGE == 1024
  {
  }

  lemma NothingOpen(m: Machine, k: Kernel, v: nat)
    requires WorldOk(FirstWorld(m), k)
    ensures WellSized(m) && ROOT < |m.mem|
    ensures PageOf(v) / 512 == WINDOW_BLOCK && Translate(m.mem, v) == Absent ==> !UserWalk(m.mem, ROOT, 4, v)
    ensures PageOf(v) / 512 != WINDOW_BLOCK ==> !UserWalk(m.mem, ROOT, 4, v)
  {
    hide FrameOf, Bit, PageOf, Closed, Walk, UserWalk;
    SoundSizes(FirstWorld(m).sys, k);
    if PageOf(v) / 512 != WINDOW_BLOCK {
      ClosedToUsers(FirstWorld(m).sys, k, v);
    } else if UserWalk(m.mem, ROOT, 4, v) {
      UserWalkArrives(m.mem, ROOT, 4, v);
    }
  }

  /** The directory that is opened is the one on the walk of the window. */
  lemma WindowDirectory(m: Machine, tables: Tables)
    requires Good(m, tables) && ROOT < |m.mem| && Reach(m.mem, ROOT, 4, USERSPACE_START_ADDR).Some?
    requires FrameOf(m.mem[ROOT][0]) < |m.mem| && FrameOf(m.mem[FrameOf(m.mem[ROOT][0])][1]) < |m.mem|
    requires ROOT != FrameOf(m.mem[ROOT][0])
    ensures OpenWindow(m.mem).1 == DirectoryOf(m.mem, ROOT, 4, USERSPACE_START_ADDR)
  {
    hide FrameOf, Bit, SetPgFlag;
    WindowIndices(0);
    var v, pdt := USERSPACE_START_ADDR, FrameOf(m.mem[ROOT][0]);
    assert DirectoryOf(m.mem, ROOT, 4, v) == DirectoryOf(m.mem, pdt, 3, v);
  }

  /** What is at an address after boot: nothing in the window, every other page of memory at
    * itself, nothing beyond. The boot code leaves the high halves of the entries for the
    * second 2 MiB as they were. Nothing at all is open to user code. */
  ghost predicate SeenAfterBoot(memSize: nat, m: Machine, v: nat)
    requires WellSized(m) && ROOT < |m.mem|
  {
    var page, seen := PageOf(v), Translate(m.mem, v);
    && (page / 512 == WINDOW_BLOCK ==> seen == Absent)
    && (page / 512 != WINDOW_BLOCK && PAGE_SIZE * page < memSize ==>
          seen.Page? && seen.flags == 3 && (if page / 512 == 1 then seen.frame % 0x100000 else seen.frame) == page)
    && (PAGE_SIZE * page >= memSize ==> seen == Absent)
    && !UserWalk(m.mem, ROOT, 4, v)
  }

  /** What the processor sees after boot, at every address. */
  ghost predicate BootView(memSize: nat, m: Machine)
  {
    WellSized(m) && ROOT < |m.mem| && forall v: nat :: SeenAfterBoot(memSize, m, v)
  }

  /** What the boot code's tables translate. */
  lemma BootTranslates(mem: Memory, v: nat)
    requires BootTables(mem)
    ensures var page, seen := PageOf(v), Translate(mem, v);
            if page < 512 then seen == Page(page, 3)
            else if page < 1024 then seen.Page? && seen.flags == 3 && seen.frame % 0x100000 == page
            else seen == Absent
  {
    hide FrameOf, Bit, PageOf;
    ZeroEntry();
    PlainEntry(PDPT0);
    PlainEntry(PDT0);
    PlainEntry(PT0);
    PlainEntry(PT1);
    var d1, d2, d3, d4 := Index(v, 1), Index(v, 2), Index(v, 3), Index(v, 4);
    PagePlace(v);
    if d4 == 0 && d3 == 0 && d2 == 0 {
      BootLeaf(mem[PT0][d1], d1);
      assert Walk(mem, PDT0, 2, v) == Walk(mem, PT0, 1, v);
      assert Walk(mem, PDPT0, 3, v) == Walk(mem, PDT0, 2, v);
    } else if d4 == 0 && d3 == 0 && d2 == 1 {
      BootLeaf(mem[PT1][d1], 512 + d1);
      assert Walk(mem, PDT0, 2, v) == Walk(mem, PT1, 1, v);
      assert Walk(mem, PDPT0, 3, v) == Walk(mem, PDT0, 2, v);
    } else if d4 == 0 && d3 == 0 {
      assert Walk(mem, PDT0, 2, v) == Absent;
      assert Walk(mem, PDPT0, 3, v) == Walk(mem, PDT0, 2, v);
    } else if d4 == 0 {
      assert Walk(mem, PDPT0, 3, v) == Absent;
    }
  }

  lemma PagePlace(v: nat)
    ensures Index(v, 4) == Index(v, 3) == 0 && Index(v, 2) < 2 <==> PageOf(v) < 1024
    ensures PageOf(v) < 1024 ==> PageOf(v) == Index(v, 1) + 512 * Index(v, 2)
  {
    PageDigits(v);
  }

  lemma BootLeaf(e: nat, f: nat)
    requires e % 0x1_0000_0000 == 4096 * f + 3 && f < 1024
    ensures HardPresent(e) && e % 4096 == 3 && FrameOf(e) % 0x100000 == f && (e == 4096 * f + 3 ==> FrameOf(e) == f)
  {
    LowHalf(e, f);
    var h := e / 0x1_0000_0000;
    assert e == 4096 * (0x100000 * h + f) + 3;
    assert e / 4096 == 0x100000 * h + f;
  }

  /** A walk open to user code arrives somewhere. */
  lemma {:induction false} UserWalkArrives(mem: Memory, f: nat, level: nat, v: nat)
    requires 1 <= level <= 4 && f < |mem| && (forall g | 0 <= g < |mem| :: |mem[g]| == 512)
    requires UserWalk(mem, f, level, v)
    ensures Walk(mem, f, level, v).Page?
    decreases level
  {
    hide FrameOf, Bit;
    if level > 1 {
      UserWalkArrives(mem, FrameOf(mem[f][Index(v, level)]), level - 1, v);
    }
  }

  /** The state before the window is opened. */
  lemma MappedGood(m: Machine, tables: Tables, n: nat) returns (tables2: Tables)
    requires Good(m, tables) && 0 < n && FIRST_PAGE + n <= 0x1000000000
    requires 3 * (n / 512 + 3) <= Clear(m.frames.bits)
    ensures CanBoot(m, n) && Good(Mapped(m, n), tables2) && ROOT < |m.mem|
    ensures ROOT < |Mapped(m, n).mem| && Reach(Mapped(m, n).mem, ROOT, 4, USERSPACE_START_ADDR).Some?
    ensures Shut(m, tables) ==>
              ShutBut(Mapped(m, n), tables2, DirectoryOf(Mapped(m, n).mem, ROOT, 4, USERSPACE_START_ADDR), USER_SLOT)
    ensures forall v: nat | PageOf(v) / 512 != WINDOW_BLOCK ::
              Translate(Mapped(m, n).mem, v) ==
              if FIRST_PAGE <= PageOf(v) < FIRST_PAGE + n then Page(PageOf(v), 3) else Translate(m.mem, v)
  {
    hide FrameOf, Bit, MakeEntry, CanMap, MapPage, Tree, Walk, CanMapRange, MapRange, ShutBut;
    RootThere(m, tables);
    assert Need(m, FIRST_PAGE, n) <= 3 + 3 * (n / 512 + 1);
    RangeFits(m, tables, FIRST_PAGE, n);
    var tables1 := MapRangeTranslates(m, tables, FIRST_PAGE, n);
    var m1 := MapRange(m, FIRST_PAGE, n);
    tables2 := MapWindowStart(m1, tables1);
  }

  lemma MapWindowStart(m1: Machine, tables1: Tables) returns (tables2: Tables)
    requires Good(m1, tables1) && 3 <= Clear(m1.frames.bits)
    ensures CanMap(m1, USERSPACE_START_ADDR, USER_FLAGS) && ROOT < |m1.mem|
    ensures var m2 := MapPage(m1, USERSPACE_START_ADDR, USERSPACE_START_ADDR, USER_FLAGS);
            && Good(m2, tables2) && ROOT < |m2.mem| && Reach(m2.mem, ROOT, 4, USERSPACE_START_ADDR).Some?
            && (Shut(m1, tables1) ==>
                  ShutBut(m2, tables2, DirectoryOf(m2.mem, ROOT, 4, USERSPACE_START_ADDR), USER_SLOT))
            && forall v: nat | PageOf(v) / 512 != WINDOW_BLOCK :: Translate(m2.mem, v) == Translate(m1.mem, v)
  {
    hide FrameOf, Bit, MakeEntry, MapPage, Walk, CanBuild, ShutBut;
    CallersFlags();
    var a := USERSPACE_START_ADDR;
    WindowIndices(0);
    MissingAtMost(m1.mem, ROOT, 4, a);
    EnoughFrames(m1, tables1, ROOT, a, USER_FLAGS);
    var _ := MapPageChangesOneTranslation(m1, tables1, a, a, USER_FLAGS);
    tables2 := MapPageReaches(m1, tables1, a, a, USER_FLAGS);
    if Shut(m1, tables1) {
      MapPageOpens(m1, tables1, a, a, USER_FLAGS);
    }
    assert PageOf(a) / 512 == WINDOW_BLOCK;
  }
}
