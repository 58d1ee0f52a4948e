/** Processes in the 2 MiB user window: one page table each, swapped through a single
  * page-directory entry (src/kernel/task/task.cpp, src/kernel/elfLoader/elfLoader.cpp). */
module UserSpace {
  import opened Frames
  import opened PageEntries
  import opened PageTables

  const USERSPACE_START_ADDR := 0x70000000
  const USER_SLOT := 384  // PDidx(USERSPACE_START_ADDR)

  /** Address of page i of the window. */
  function PageAddr(i: nat): nat
  {
    USERSPACE_START_ADDR + PAGE_SIZE * i
  }

  lemma WindowIndices(i: nat)
    requires i < 512
    ensures Index(PageAddr(i), 4) == 0 && Index(PageAddr(i), 3) == 1
    ensures Index(PageAddr(i), 2) == USER_SLOT && Index(PageAddr(i), 1) == i
  {
    assert PageAddr(i) == 0x70000000 + 4096 * i;
  }

  /** The 2 MiB block of the window: USERSPACE_START_ADDR / 0x200000. */
  const WINDOW_BLOCK := 896

  lemma WindowBlock(v: nat)
    ensures PageOf(v) / 512 == WINDOW_BLOCK <==>
            Index(v, 4) == 0 && Index(v, 3) == 1 && Index(v, 2) == USER_SLOT
  {
    PageDigits(v);
    var d1, d2, d3, d4 := Index(v, 1), Index(v, 2), Index(v, 3), Index(v, 4);
    assert PageOf(v) == d1 + 512 * (d2 + 512 * (d3 + 512 * d4));
    assert PageOf(v) / 512 == d2 + 512 * (d3 + 512 * d4);
  }

  /** The walk of every window address gets to directory `upd`, MMU::userPD, through entries
    * that user code may use. */
  ghost predicate WindowReady(m: Machine, tables: Tables, upd: nat)
    requires Good(m, tables)
  {
    && upd in tables && tables[upd].level == 2 && upd < |m.mem|
    && HardPresent(m.mem[ROOT][0])
    && var pdt := FrameOf(m.mem[ROOT][0]);
       && pdt in tables && HardPresent(m.mem[pdt][1]) && FrameOf(m.mem[pdt][1]) == upd
       && Bit(m.mem[ROOT][0], USER_BIT) && Bit(m.mem[pdt][1], USER_BIT)
  }

  function Slot(m: Machine, upd: nat): nat
    requires upd < |m.mem| && |m.mem[upd]| == 512
  {
    m.mem[upd][USER_SLOT]
  }

  /** Mapping a window page touches nothing above the directory. */
  lemma MapInWindow(m: Machine, tables: Tables, upd: nat, i: nat, paddr: nat, flags: nat)
    requires Good(m, tables) && WindowReady(m, tables, upd) && i < 512 && FlagsOk(flags)
    requires SoftPresent(Slot(m, upd)) || CanGrant(m.frames)
    ensures CanMap(m, PageAddr(i), flags)
    ensures var m1 := EnsureTable(m, upd, USER_SLOT, flags);
            var pt := FrameOf(Slot(m1, upd));
            && pt < |m1.mem|
            && MapPage(m, PageAddr(i), paddr, flags) == m1.(mem := Put(m1.mem, pt, i, MakeEntry(paddr, flags)))
  {
    WindowIndices(i);
    var v := PageAddr(i);
    var pdt := FrameOf(m.mem[ROOT][0]);
    assert EntryIn(m, tables, ROOT, 0);
    assert EntryIn(m, tables, pdt, 1);
    EnsureTableKeepsTree(m, tables, upd, USER_SLOT, flags);
    var m1 := EnsureTable(m, upd, USER_SLOT, flags);
    var pt := FrameOf(Slot(m1, upd));
    assert CanBuild(m1, pt, 1, v, flags);
    assert CanBuild(m, upd, 2, v, flags) && BuildPath(m, upd, 2, v, flags) == (m1, pt);
    assert CanBuild(m, pdt, 3, v, flags) && BuildPath(m, pdt, 3, v, flags) == (m1, pt);
    assert CanBuild(m, ROOT, 4, v, flags) && BuildPath(m, ROOT, 4, v, flags) == (m1, pt);
  }

  // ---------- Processes ----------

  /** What a process header keeps: the directory entry `pd` and, as a page count, `lastVaddr`. */
  datatype Process = Process(pd: nat, pages: nat)
  datatype System = System(m: Machine, procs: map<nat, Process>)

  /** The tables, the user directory, and the frames no process owns. */
  datatype Kernel = Kernel(tables: Tables, upd: nat, base: set<nat>)

  function Table(p: Process): nat
  {
    FrameOf(p.pd)
  }

  /** The frames reaping a process must give back: its page table and its pages. */
  function Owned(m: Machine, p: Process): set<nat>
  {
    {Table(p)} + set i | 0 <= i < p.pages :: PageFrame(m.mem, Table(p), i)
  }

  /** The pages of p are where they were. */
  ghost predicate PagesKept(m: Machine, m': Machine, p: Process)
  {
    forall i: nat | i < p.pages :: PageFrame(m'.mem, Table(p), i) == PageFrame(m.mem, Table(p), i)
  }

  function PageFrame(mem: Memory, pt: nat, i: nat): nat
  {
    if pt < |mem| && i < |mem[pt]| then FrameOf(mem[pt][i]) else 0
  }

  /** A word that may stand in the user slot: null, or a plain pointer to a window table. */
  ghost predicate SlotWord(k: Kernel, e: nat)
  {
    && (SoftPresent(e) <==> HardPresent(e))
    && (HardPresent(e) ==>
          !Bit(e, PDE_S) && FrameOf(e) in k.tables && k.tables[FrameOf(e)] == Node(1, k.upd, USER_SLOT))
  }

  /** A page entry whose frame `freePg(entry)` finds by dividing the whole word. */
  ghost predicate PageOk(m: Machine, tables: Tables, e: nat)
    requires WellSized(m)
  {
    && HardPresent(e) && Bit(e, USER_BIT) && e % PAGE_SIZE == 7 && e / PAGE_SIZE == FrameOf(e) < |m.mem|
    && m.frames.bits[FrameOf(e)] && FrameOf(e) !in tables
  }

  ghost predicate ProcOk(m: Machine, k: Kernel, p: Process)
    requires WellSized(m)
  {
    && SlotWord(k, p.pd) && HardPresent(p.pd) && Bit(p.pd, USER_BIT) && p.pages <= 512
    && Table(p) < |m.mem| && m.frames.bits[Table(p)]
    && (forall i | 0 <= i < p.pages :: PageOk(m, k.tables, m.mem[Table(p)][i]))
    && (forall i, j | 0 <= i < j < p.pages :: FrameOf(m.mem[Table(p)][i]) != FrameOf(m.mem[Table(p)][j]))
    && (forall i | p.pages <= i < 512 :: m.mem[Table(p)][i] == 0)
  }

  function Shares(s: System): map<nat, set<nat>>
  {
    map t | t in s.procs :: Owned(s.m, s.procs[t])
  }

  /** These frames are in use and not the kernel's. */
  ghost predicate InUse(bits: seq<bool>, base: set<nat>, frames: set<nat>)
  {
    forall x | x in frames :: x < |bits| && bits[x] && x !in base
  }

  /** Every frame in use belongs to the kernel or to exactly one process. */
  ghost predicate Partition(bits: seq<bool>, base: set<nat>, own: map<nat, set<nat>>)
  {
    && (forall x | x in base :: x < |bits| && bits[x])
    && (forall t | t in own :: InUse(bits, base, own[t]))
    && (forall t, u | t in own && u in own && t != u :: own[t] !! own[u])
    && (forall x | 0 <= x < |bits| && bits[x] && x !in base :: exists t :: t in own && x in own[t])
  }

  ghost predicate WindowOk(m: Machine, k: Kernel)
  {
    Good(m, k.tables) && WindowReady(m, k.tables, k.upd) && SlotWord(k, Slot(m, k.upd))
  }

  ghost predicate Invariant(s: System, k: Kernel)
  {
    WindowOk(s.m, k) && ProcsOk(s, k)
  }

  /** The process side of the invariant. */
  ghost predicate ProcsOk(s: System, k: Kernel)
    requires WellSized(s.m)
  {
    && (forall t | t in s.procs :: ProcOk(s.m, k, s.procs[t]))
    && Partition(s.m.frames.bits, k.base, Shares(s))
  }

  lemma TakenApart(bits: seq<bool>, base: set<nat>, taken: set<nat>)
    requires forall x | x in base :: x < |bits| && bits[x]
    requires forall x | x in taken :: x < |bits| && !bits[x]
    ensures base !! taken
  {
  }

  lemma PartitionTake(bits: seq<bool>, bits': seq<bool>, base: set<nat>, own: map<nat, set<nat>>, t: nat,
                      taken: set<nat>)
    requires Partition(bits, base, own) && |bits'| == |bits|
    requires forall x | x in taken :: x < |bits| && !bits[x]
    requires forall x | 0 <= x < |bits| :: bits'[x] == (bits[x] || x in taken)
    ensures Partition(bits', base, own[t := (if t in own then own[t] else {}) + taken])
  {
    var own' := own[t := (if t in own then own[t] else {}) + taken];
    forall u | u in own
      ensures own[u] !! taken && InUse(bits', base, own[u])
    {
      assert InUse(bits, base, own[u]);
    }
    TakenApart(bits, base, taken);
    assert forall u | u in own' && u != t :: u in own && own'[u] == own[u];
    assert InUse(bits', base, own'[t]);
    forall x | 0 <= x < |bits'| && bits'[x] && x !in base
      ensures exists u :: u in own' && x in own'[u]
    {
      if x in taken {
        assert x in own'[t];
      } else {
        var u :| u in own && x in own[u];
        assert x in own'[u];
      }
    }
  }

  lemma PartitionFree(bits: seq<bool>, bits': seq<bool>, base: set<nat>, own: map<nat, set<nat>>, t: nat)
    requires Partition(bits, base, own) && |bits'| == |bits| && t in own
    requires forall x | 0 <= x < |bits| :: bits'[x] == (bits[x] && x !in own[t])
    ensures Partition(bits', base, own - {t})
  {
    var own' := own - {t};
    forall u | u in own'
      ensures InUse(bits', base, own'[u])
    {
      assert InUse(bits, base, own[u]) && own[u] !! own[t];
    }
    assert InUse(bits, base, own[t]);
    forall x | 0 <= x < |bits'| && bits'[x] && x !in base
      ensures exists u :: u in own' && x in own'[u]
    {
      var u :| u in own && x in own[u];
      assert u in own';
    }
  }

  // ---------- Swapping the user slot ----------

  function SetSlot(m: Machine, upd: nat, e: nat): Machine
    requires upd < |m.mem| && |m.mem[upd]| == 512
  {
    m.(mem := Put(m.mem, upd, USER_SLOT, e))
  }

  lemma SetSlotGood(m: Machine, k: Kernel, e: nat)
    requires Good(m, k.tables) && WindowReady(m, k.tables, k.upd) && SlotWord(k, e)
    ensures Good(SetSlot(m, k.upd, e), k.tables) && WindowReady(SetSlot(m, k.upd, e), k.tables, k.upd)
    ensures SetSlot(SetSlot(m, k.upd, e), k.upd, Slot(m, k.upd)) == m
  {
    var m' := SetSlot(m, k.upd, e);
    forall f, i | f in k.tables && 0 <= i < 512
      ensures EntryIn(m', k.tables, f, i)
    {
      assert EntryIn(m, k.tables, f, i);
    }
    var pdt := FrameOf(m.mem[ROOT][0]);
    assert EntryIn(m, k.tables, ROOT, 0);
    assert m.mem[k.upd][USER_SLOT := e][USER_SLOT := Slot(m, k.upd)] == m.mem[k.upd];
    assert SetSlot(m', k.upd, Slot(m, k.upd)).mem == m.mem;
  }

  /** A process is untouched as long as its table's row is and its frames stay in use. */
  lemma KeepProc(m: Machine, k: Kernel, m': Machine, k': Kernel, p: Process)
    requires WellSized(m) && WellSized(m') && ProcOk(m, k, p) && |m'.mem| == |m.mem|
    requires m'.mem[Table(p)] == m.mem[Table(p)] && SlotWord(k', p.pd)
    requires forall x | x in Owned(m, p) :: m'.frames.bits[x] && (x in k'.tables ==> x in k.tables)
    ensures ProcOk(m', k', p) && Owned(m', p) == Owned(m, p)
  {
    forall i | 0 <= i < p.pages
      ensures PageOk(m', k'.tables, m'.mem[Table(p)][i])
    {
      assert PageOk(m, k.tables, m.mem[Table(p)][i]);
      assert PageFrame(m.mem, Table(p), i) in Owned(m, p);
    }
    assert Table(p) in Owned(m, p);
    assert forall i | 0 <= i < p.pages :: PageFrame(m'.mem, Table(p), i) == PageFrame(m.mem, Table(p), i);
  }

  lemma OwnedTaken(m: Machine, k: Kernel, p: Process)
    requires WellSized(m) && ProcOk(m, k, p)
    ensures forall x | x in Owned(m, p) :: x < |m.mem| && m.frames.bits[x] && (x in k.tables <==> x == Table(p))
    ensures Table(p) in Owned(m, p)
  {
    assert forall i | 0 <= i < p.pages :: PageOk(m, k.tables, m.mem[Table(p)][i]);
  }

  /** Only the given frames were written. */
  ghost predicate RowsKept(m: Machine, m': Machine, written: set<nat>)
  {
    |m'.mem| == |m.mem| && forall g | 0 <= g < |m.mem| && g !in written :: m'.mem[g] == m.mem[g]
  }

  /** Every process but t is as it was. */
  ghost predicate OthersKept(s: System, s': System, k': Kernel, t: nat)
  {
    && WellSized(s'.m)
    && (forall u | u in s.procs && u != t ::
          && u in s'.procs && s'.procs[u] == s.procs[u]
          && ProcOk(s'.m, k', s'.procs[u]) && Owned(s'.m, s'.procs[u]) == Owned(s.m, s.procs[u]))
  }

  /** The kernel data of k' extends that of k by tables in frames that were free. */
  ghost predicate TablesGrow(m: Machine, k: Kernel, k': Kernel)
    requires WellSized(m)
  {
    && k'.upd == k.upd && k'.base == k.base
    && (forall x | x in k.tables :: x in k'.tables && k'.tables[x] == k.tables[x])
    && (forall x | x in k'.tables && x !in k.tables :: x < |m.mem| && !m.frames.bits[x] && k'.tables[x].level == 1)
  }

  /** A step that frees nothing and writes only to fresh tables, the directory and the table
    * of process t leaves the others as they were. */
  lemma KeepOthers(s: System, k: Kernel, s': System, k': Kernel, t: nat)
    requires WellSized(s.m) && WellSized(s'.m) && |s'.m.mem| == |s.m.mem| && TablesGrow(s.m, k, k')
    requires forall u | u in s.procs :: ProcOk(s.m, k, s.procs[u])
    requires forall u | u in s.procs && u != t :: u in s'.procs && s'.procs[u] == s.procs[u]
    requires forall x | 0 <= x < |s.m.mem| && s.m.frames.bits[x] :: s'.m.frames.bits[x]
    requires forall u | u in s.procs && u != t ::
               Table(s.procs[u]) < |s.m.mem| && s'.m.mem[Table(s.procs[u])] == s.m.mem[Table(s.procs[u])]
    ensures OthersKept(s, s', k', t)
  {
    forall u | u in s.procs && u != t
      ensures ProcOk(s'.m, k', s.procs[u]) && Owned(s'.m, s.procs[u]) == Owned(s.m, s.procs[u])
    {
      OwnedTaken(s.m, k, s.procs[u]);
      KeepProc(s.m, k, s'.m, k', s.procs[u]);
    }
  }

  /** Processes are read through their own tables, so the slot does not matter to them. */
  lemma SetSlotKeeps(s: System, k: Kernel, e: nat)
    requires Invariant(s, k) && SlotWord(k, e)
    ensures Invariant(s.(m := SetSlot(s.m, k.upd, e)), k)
    ensures Shares(s.(m := SetSlot(s.m, k.upd, e))) == Shares(s)
  {
    hide FrameOf, Bit, Partition, Owned, ProcOk, SlotWord;
    var s' := s.(m := SetSlot(s.m, k.upd, e));
    SetSlotGood(s.m, k, e);
    forall t | t in s.procs
      ensures ProcOk(s'.m, k, s.procs[t]) && Owned(s'.m, s.procs[t]) == Owned(s.m, s.procs[t])
    {
      SetSlotProc(s.m, k, e, s.procs[t]);
    }
    assert Shares(s') == Shares(s);
  }

  lemma SetSlotProc(m: Machine, k: Kernel, e: nat, p: Process)
    requires WellSized(m) && k.upd < |m.mem| && k.upd in k.tables && k.tables[k.upd].level == 2 && ProcOk(m, k, p)
    ensures ProcOk(SetSlot(m, k.upd, e), k, p) && Owned(SetSlot(m, k.upd, e), p) == Owned(m, p)
  {
    hide FrameOf, Bit;
    OwnedTaken(m, k, p);
    KeepProc(m, k, SetSlot(m, k.upd, e), k, p);
  }

  // ---------- Taking pages ----------

  ghost predicate CanTake(m: Machine, i: nat, flags: nat)
  {
    CanGrant(m.frames) && CanMap(m.(frames := Request(m.frames)), PageAddr(i), flags)
  }

  /** `reqPg` followed by `mapPg` of the granted frame at page i of the window. */
  ghost function TakePage(m: Machine, i: nat, flags: nat): Machine
    requires CanTake(m, i, flags)
  {
    MapPage(m.(frames := Request(m.frames)), PageAddr(i), PAGE_SIZE * Grant(m.frames), flags)
  }

  lemma RequestGood(m: Machine, k: Kernel)
    requires Good(m, k.tables) && WindowReady(m, k.tables, k.upd) && CanGrant(m.frames)
    ensures Good(m.(frames := Request(m.frames)), k.tables)
    ensures WindowReady(m.(frames := Request(m.frames)), k.tables, k.upd)
  {
    var m' := m.(frames := Request(m.frames));
    forall f, i | f in k.tables && 0 <= i < 512
      ensures EntryIn(m', k.tables, f, i)
    {
      assert EntryIn(m, k.tables, f, i);
    }
  }

  /** What the callers pass for pages of user programs. */
  predicate UserFlags(flags: nat)
  {
    FlagsOk(flags) && Bit(flags, USER_BIT) && flags == 7
  }

  lemma PageEntry(n: nat, flags: nat)
    requires FlagsOk(flags) && n < FIELD
    ensures var e := MakeEntry(PAGE_SIZE * n, flags);
            && e / PAGE_SIZE == FrameOf(e) == n && HardPresent(e) && SoftPresent(e)
            && Bit(e, USER_BIT) == Bit(flags, USER_BIT) && e % PAGE_SIZE == flags
  {
    NewEntry(n, flags);
    EntryRoundTrip(PAGE_SIZE * n, flags);
    EntrySum(PAGE_SIZE * n, flags);
  }

  /** Writing a leaf table keeps the way to the directory. */
  lemma PutLeafWindow(m: Machine, k: Kernel, pt: nat, i: nat, e: nat)
    requires Good(m, k.tables) && WindowReady(m, k.tables, k.upd) && pt in k.tables && k.tables[pt].level == 1
    requires i < 512 && (SoftPresent(e) <==> HardPresent(e))
    ensures Good(m.(mem := Put(m.mem, pt, i, e)), k.tables)
    ensures WindowReady(m.(mem := Put(m.mem, pt, i, e)), k.tables, k.upd)
  {
    hide FrameOf, Bit;
    PutLeafKeepsTree(m, k.tables, pt, i, e);
    assert EntryIn(m, k.tables, ROOT, 0);
  }

  /** A page under the table in the slot: one more frame, one more entry. */
  lemma TakeNextPage(m: Machine, k: Kernel, i: nat, flags: nat)
    requires WindowOk(m, k) && FlagsOk(flags) && i < 512 && HardPresent(Slot(m, k.upd)) && CanGrant(m.frames)
    ensures var pt, n := FrameOf(Slot(m, k.upd)), Grant(m.frames);
            && CanTake(m, i, flags) && n !in k.tables && pt < |m.mem| && WindowOk(TakePage(m, i, flags), k)
            && TakePage(m, i, flags) ==
               Machine(Request(m.frames), Put(m.mem, pt, i, MakeEntry(PAGE_SIZE * n, flags)))
  {
    hide FrameOf, Bit, MakeEntry;
    var m0 := m.(frames := Request(m.frames));
    var n := Grant(m.frames);
    RequestGood(m, k);
    MapInWindow(m0, k.tables, k.upd, i, PAGE_SIZE * n, flags);
    PageEntry(n, flags);
    PutLeafWindow(m0, k, FrameOf(Slot(m, k.upd)), i, MakeEntry(PAGE_SIZE * n, flags));
  }

  lemma TablePresent(m: Machine, k: Kernel, p: Process)
    requires WellSized(m) && ProcOk(m, k, p)
    ensures HardPresent(p.pd)
  {
  }

  /** One more page for process t, whose table is in the slot. */
  ghost function NextPage(s: System, t: nat, flags: nat): System
    requires t in s.procs && CanTake(s.m, s.procs[t].pages, flags)
  {
    var p := s.procs[t];
    System(TakePage(s.m, p.pages, flags), s.procs[t := p.(pages := p.pages + 1)])
  }

  lemma NextPageOwned(m: Machine, k: Kernel, p: Process, m': Machine, n: nat, e: nat)
    requires WellSized(m) && WellSized(m') && ProcOk(m, k, p) && p.pages < 512 && |m'.mem| == |m.mem|
    requires m'.mem == Put(m.mem, Table(p), p.pages, e) && HardPresent(e) && Bit(e, USER_BIT)
    requires e / PAGE_SIZE == FrameOf(e) == n && e % PAGE_SIZE == 7
    requires n < |m.mem| && !m.frames.bits[n] && n !in k.tables && m'.frames.bits == m.frames.bits[n := true]
    ensures ProcOk(m', k, p.(pages := p.pages + 1))
    ensures Owned(m', p.(pages := p.pages + 1)) == Owned(m, p) + {n}
  {
    OwnedTaken(m, k, p);
    var p' := p.(pages := p.pages + 1);
    var row, row' := m.mem[Table(p)], m'.mem[Table(p)];
    forall i | 0 <= i < p.pages
      ensures row'[i] == row[i] && PageOk(m', k.tables, row'[i]) && FrameOf(row[i]) != n
    {
      assert PageOk(m, k.tables, row[i]) && PageFrame(m.mem, Table(p), i) in Owned(m, p);
    }
    OwnedGrows(m, m', p, n);
  }

  lemma OwnedGrows(m: Machine, m': Machine, p: Process, n: nat)
    requires forall i | 0 <= i < p.pages :: PageFrame(m'.mem, Table(p), i) == PageFrame(m.mem, Table(p), i)
    requires PageFrame(m'.mem, Table(p), p.pages) == n
    ensures Owned(m', p.(pages := p.pages + 1)) == Owned(m, p) + {n}
  {
    var p' := p.(pages := p.pages + 1);
    forall x | x in Owned(m, p) + {n}
      ensures x in Owned(m', p')
    {
      if x == n {
        assert PageFrame(m'.mem, Table(p), p.pages) == n;
      } else if x != Table(p) {
        var i :| 0 <= i < p.pages && x == PageFrame(m.mem, Table(p), i);
        assert PageFrame(m'.mem, Table(p), i) == x;
      }
    }
  }

  /** Tables of different processes are different frames. */
  lemma TablesDiffer(s: System, k: Kernel, t: nat)
    requires WellSized(s.m) && Partition(s.m.frames.bits, k.base, Shares(s)) && t in s.procs
    requires forall u | u in s.procs :: ProcOk(s.m, k, s.procs[u])
    ensures forall u | u in s.procs :: Table(s.procs[u]) < |s.m.mem|
    ensures forall u | u in s.procs && u != t :: Table(s.procs[u]) != Table(s.procs[t])
  {
    hide FrameOf, Bit, SlotWord;
    forall u | u in s.procs && u != t
      ensures Table(s.procs[u]) != Table(s.procs[t])
    {
      assert Table(s.procs[t]) in Shares(s)[t] && Table(s.procs[u]) in Shares(s)[u];
    }
  }

  lemma SharesOf(s: System, s': System, k': Kernel, t: nat)
    requires OthersKept(s, s', k', t) && s'.procs.Keys == s.procs.Keys + {t}
    ensures Shares(s') == Shares(s)[t := Owned(s'.m, s'.procs[t])]
  {
    hide Owned, ProcOk;
  }

  /** Process t, old or new, took some free frames; no row of another process changed. */
  lemma TakeKeepsProcs(s: System, k: Kernel, s': System, k': Kernel, t: nat, taken: set<nat>)
    requires WellSized(s.m) && WellSized(s'.m) && |s'.m.mem| == |s.m.mem| && TablesGrow(s.m, k, k') && ProcsOk(s, k)
    requires s'.procs.Keys == s.procs.Keys + {t} && ProcOk(s'.m, k', s'.procs[t])
    requires forall u | u in s.procs && u != t :: s'.procs[u] == s.procs[u]
    requires forall u | u in s.procs && u != t ::
               Table(s.procs[u]) < |s.m.mem| && s'.m.mem[Table(s.procs[u])] == s.m.mem[Table(s.procs[u])]
    requires forall x | x in taken :: x < |s.m.mem| && !s.m.frames.bits[x]
    requires forall x | 0 <= x < |s.m.mem| :: s'.m.frames.bits[x] == (s.m.frames.bits[x] || x in taken)
    requires Owned(s'.m, s'.procs[t]) == (if t in s.procs then Owned(s.m, s.procs[t]) else {}) + taken
    ensures ProcsOk(s', k') && OthersKept(s, s', k', t)
  {
    hide FrameOf, Bit, Partition, Owned, ProcOk;
    KeepOthers(s, k, s', k', t);
    SharesOf(s, s', k', t);
    PartitionTake(s.m.frames.bits, s'.m.frames.bits, k.base, Shares(s), t, taken);
  }

  /** A page step keeps the invariant, takes one frame, and touches no other process. */
  lemma NextPageKeeps(s: System, k: Kernel, t: nat, flags: nat)
    requires Invariant(s, k) && UserFlags(flags) && t in s.procs && s.procs[t].pages < 512
    requires Slot(s.m, k.upd) == s.procs[t].pd && CanGrant(s.m.frames)
    ensures CanTake(s.m, s.procs[t].pages, flags)
    ensures var s' := NextPage(s, t, flags);
            && Invariant(s', k) && OthersKept(s, s', k, t)
            && s'.m.frames == Request(s.m.frames)
            && Owned(s'.m, s'.procs[t]) == Owned(s.m, s.procs[t]) + {Grant(s.m.frames)}
            && RowsKept(s.m, s'.m, {Table(s.procs[t])}) && PagesKept(s.m, s'.m, s.procs[t])
  {
    hide FrameOf, Bit, MakeEntry, Partition, Owned, ProcOk, SlotWord, Tree, WindowReady, TakePage, CanTake;
    var p, n := s.procs[t], Grant(s.m.frames);
    var e := MakeEntry(PAGE_SIZE * n, flags);
    TablePresent(s.m, k, p);
    TakeNextPage(s.m, k, p.pages, flags);
    PageEntry(n, flags);
    var s' := NextPage(s, t, flags);
    NextPageOwned(s.m, k, p, s'.m, n, e);
    TablesDiffer(s, k, t);
    TakeKeepsProcs(s, k, s', k, t, {n});
  }

  /** The first page of a new process: the null slot makes mapPg add a page table. */
  ghost function FirstPage(s: System, upd: nat, t: nat, flags: nat): System
    requires CanTake(s.m, 0, flags) && upd < |TakePage(s.m, 0, flags).mem|
  {
    var m' := TakePage(s.m, 0, flags);
    System(m', s.procs[t := Process(Slot(m', upd), 1)])
  }

  /** A fresh table with one entry, hung in the slot. */
  ghost function Hung(m: Machine, upd: nat, i: nat, n: nat, pt: nat, flags: nat): Memory
    requires WellSized(m) && upd < |m.mem| && pt < |m.mem| && pt != upd && i < 512
  {
    var mem1 := Put(m.mem[pt := Zeros()], upd, USER_SLOT, MakeEntry(PAGE_SIZE * pt, flags));
    Put(mem1, pt, i, MakeEntry(PAGE_SIZE * n, flags))
  }

  lemma TakeFirstPage(m: Machine, k: Kernel, i: nat, flags: nat)
    requires WindowOk(m, k) && FlagsOk(flags) && i < 512
    requires Slot(m, k.upd) == 0 && CanGrant(m.frames) && CanGrant(Request(m.frames))
    ensures CanTake(m, i, flags)
    ensures var n, pt := Grant(m.frames), Grant(Request(m.frames));
            var m1 := EnsureTable(m.(frames := Request(m.frames)), k.upd, USER_SLOT, flags);
            && n != pt && n !in k.tables && pt !in k.tables && pt != k.upd
            && WellSized(TakePage(m, i, flags))
            && Good(m1, k.tables[pt := Node(1, k.upd, USER_SLOT)])
            && Slot(m1, k.upd) == MakeEntry(PAGE_SIZE * pt, flags)
            && TakePage(m, i, flags) == Machine(Request(Request(m.frames)), Hung(m, k.upd, i, n, pt, flags))
            && TakePage(m, i, flags) == m1.(mem := Put(m1.mem, pt, i, MakeEntry(PAGE_SIZE * n, flags)))
  {
    hide FrameOf, Bit, MakeEntry;
    ZeroEntry();
    NewEntry(Grant(Request(m.frames)), flags);
    var m0 := m.(frames := Request(m.frames));
    RequestGood(m, k);
    MapInWindow(m0, k.tables, k.upd, i, PAGE_SIZE * Grant(m.frames), flags);
    EnsureTableKeepsTree(m0, k.tables, k.upd, USER_SLOT, flags);
  }

  lemma FirstPageWindow(m: Machine, k: Kernel, i: nat, flags: nat)
    requires WindowOk(m, k) && FlagsOk(flags) && i < 512
    requires Slot(m, k.upd) == 0 && CanGrant(m.frames) && CanGrant(Request(m.frames))
    ensures CanTake(m, i, flags)
    ensures var pt := Grant(Request(m.frames));
            var m' := TakePage(m, i, flags);
            WindowOk(m', k.(tables := k.tables[pt := Node(1, k.upd, USER_SLOT)]))
            && Slot(m', k.upd) == MakeEntry(PAGE_SIZE * pt, flags)
  {
    hide FrameOf, Bit, MakeEntry;
    var n, pt := Grant(m.frames), Grant(Request(m.frames));
    NewEntry(pt, flags);
    NewEntry(n, flags);
    TakeFirstPage(m, k, i, flags);
    var m1 := EnsureTable(m.(frames := Request(m.frames)), k.upd, USER_SLOT, flags);
    var k' := k.(tables := k.tables[pt := Node(1, k.upd, USER_SLOT)]);
    assert EntryIn(m, k.tables, ROOT, 0);
    PutLeafWindow(m1, k', pt, i, MakeEntry(PAGE_SIZE * n, flags));
  }

  lemma FirstPageProc(m: Machine, k': Kernel, p: Process, n: nat, pt: nat)
    requires WellSized(m) && n < |m.mem| && pt < |m.mem| && m.frames.bits[n] && m.frames.bits[pt]
    requires p.pages == 1 && SlotWord(k', p.pd) && HardPresent(p.pd) && Bit(p.pd, USER_BIT) && Table(p) == pt
    requires n !in k'.tables && HardPresent(m.mem[pt][0]) && Bit(m.mem[pt][0], USER_BIT)
    requires m.mem[pt][0] / PAGE_SIZE == FrameOf(m.mem[pt][0]) == n && m.mem[pt][0] % PAGE_SIZE == 7
    requires forall i | 1 <= i < 512 :: m.mem[pt][i] == 0
    ensures ProcOk(m, k', p) && Owned(m, p) == {n, pt}
  {
    hide FrameOf, Bit;
    assert PageFrame(m.mem, pt, 0) == n;
  }

  lemma TwoRequests(fr: FrameState)
    requires CanGrant(fr) && CanGrant(Request(fr))
    ensures var n, pt := Grant(fr), Grant(Request(fr));
            && n != pt && n < |fr.bits| && pt < |fr.bits| && !fr.bits[n] && !fr.bits[pt]
            && Request(Request(fr)).bits == fr.bits[n := true][pt := true]
  {
  }

  lemma FirstPageRows(m: Machine, k: Kernel, i: nat, flags: nat)
    requires WindowOk(m, k) && FlagsOk(flags) && i < 512
    requires Slot(m, k.upd) == 0 && CanGrant(m.frames) && CanGrant(Request(m.frames))
    ensures CanTake(m, i, flags)
    ensures var n, pt := Grant(m.frames), Grant(Request(m.frames));
            var m' := TakePage(m, i, flags);
            && m'.frames == Request(Request(m.frames)) && WellSized(m')
            && RowsKept(m, m', {pt, k.upd})
            && m'.mem[pt][i] == MakeEntry(PAGE_SIZE * n, flags)
            && (forall j | 0 <= j < 512 && j != i :: m'.mem[pt][j] == 0)
            && m'.mem[k.upd] == m.mem[k.upd][USER_SLOT := MakeEntry(PAGE_SIZE * pt, flags)]
  {
    hide FrameOf, Bit, MakeEntry, Tree, TakePage, CanTake, Grant, Request;
    TwoRequests(m.frames);
    TakeFirstPage(m, k, i, flags);
  }

  /** The first page brings in exactly two frames. */
  lemma FirstPageOwned(s: System, k: Kernel, t: nat, flags: nat)
    requires WindowOk(s.m, k) && UserFlags(flags)
    requires Slot(s.m, k.upd) == 0 && CanGrant(s.m.frames) && CanGrant(Request(s.m.frames))
    ensures CanTake(s.m, 0, flags) && k.upd < |TakePage(s.m, 0, flags).mem|
    ensures var n, pt := Grant(s.m.frames), Grant(Request(s.m.frames));
            var s' := FirstPage(s, k.upd, t, flags);
            && WellSized(s'.m) && Table(s'.procs[t]) == pt
            && ProcOk(s'.m, k.(tables := k.tables[pt := Node(1, k.upd, USER_SLOT)]), s'.procs[t])
            && Owned(s'.m, s'.procs[t]) == {n, pt}
  {
    hide FrameOf, Bit, MakeEntry, Owned, ProcOk, Tree, TakePage, CanTake, Grant, Request, EnsureTable;
    var n, pt := Grant(s.m.frames), Grant(Request(s.m.frames));
    var k' := k.(tables := k.tables[pt := Node(1, k.upd, USER_SLOT)]);
    TwoRequests(s.m.frames);
    TakeFirstPage(s.m, k, 0, flags);
    FirstPageRows(s.m, k, 0, flags);
    PageEntry(n, flags);
    PageEntry(pt, flags);
    NewEntry(pt, flags);
    var s' := FirstPage(s, k.upd, t, flags);
    FirstPageProc(s'.m, k', s'.procs[t], n, pt);
  }

  /** The first page keeps the invariant, and again touches no other process. */
  lemma FirstPageKeeps(s: System, k: Kernel, t: nat, flags: nat) returns (k': Kernel)
    requires Invariant(s, k) && UserFlags(flags) && t !in s.procs
    requires Slot(s.m, k.upd) == 0 && CanGrant(s.m.frames) && CanGrant(Request(s.m.frames))
    ensures CanTake(s.m, 0, flags) && k.upd < |TakePage(s.m, 0, flags).mem| && TablesGrow(s.m, k, k')
    ensures var s' := FirstPage(s, k.upd, t, flags); Invariant(s', k') && OthersKept(s, s', k', t)
  {
    hide FrameOf, Bit, MakeEntry, Partition, Owned, ProcOk, Tree, WindowReady, TakePage, CanTake, Grant, Request;
    var n, pt := Grant(s.m.frames), Grant(Request(s.m.frames));
    k' := k.(tables := k.tables[pt := Node(1, k.upd, USER_SLOT)]);
    TwoRequests(s.m.frames);
    FirstPageRows(s.m, k, 0, flags);
    FirstPageWindow(s.m, k, 0, flags);
    FirstPageOwned(s, k, t, flags);
    FirstPageOthers(s, k, pt);
    assert {} + {n, pt} == {n, pt};
    TakeKeepsProcs(s, k, FirstPage(s, k.upd, t, flags), k', t, {n, pt});
  }

  lemma FirstPageOthers(s: System, k: Kernel, pt: nat)
    requires Invariant(s, k) && pt < |s.m.mem| && !s.m.frames.bits[pt]
    ensures pt !in k.tables
    ensures forall u | u in s.procs ::
              Table(s.procs[u]) < |s.m.mem| && Table(s.procs[u]) != pt && Table(s.procs[u]) != k.upd
  {
    hide FrameOf, Bit, Partition;
  }
}
