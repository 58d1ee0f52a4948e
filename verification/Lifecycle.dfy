/** The life of a process over the frame map: built, grown by its threads and reaped, and the
  * kernel threads beside it (src/kernel/task/task.cpp). */
module Lifecycle {
  import opened Frames
  import opened Options
  import opened PageEntries
  import opened PageTables
  import opened UserSpace

  const USER_FLAGS := 7  // PDE_P | PDE_R | PDE_U

  lemma CallersFlags()
    ensures UserFlags(USER_FLAGS)
  {
    assert Bit(7, 0) && Bit(7, 1);
    assert Bit(7, 2) by { assert Bit(3, 1) by { assert Bit(1, 0); } }
    assert Bit(0, 4) == Bit(0, 3) == Bit(0, 2) == false;
    assert Bit(7, 7) == Bit(3, 6) == Bit(1, 5) == Bit(0, 4);
  }

  // ---------- The directory entry between installs ----------

  ghost function Settled(s: System, upd: nat): System
    requires upd < |s.m.mem| && |s.m.mem[upd]| == 512
  {
    s.(m := SetSlot(s.m, upd, 0))
  }

  /** Everything is in order but for the directory entry, which may even hold the table of a
    * task that is gone: every task installs its own entry before it runs. */
  ghost predicate Sound(s: System, k: Kernel)
  {
    k.upd < |s.m.mem| && |s.m.mem[k.upd]| == 512 && Invariant(Settled(s, k.upd), k)
  }

  lemma NullSlot(k: Kernel)
    ensures SlotWord(k, 0)
  {
    ZeroEntry();
  }

  lemma SetSlotTwice(m: Machine, upd: nat, a: nat, b: nat)
    requires upd < |m.mem| && |m.mem[upd]| == 512
    ensures SetSlot(SetSlot(m, upd, a), upd, b) == SetSlot(m, upd, b)
  {
    assert m.mem[upd][USER_SLOT := a][USER_SLOT := b] == m.mem[upd][USER_SLOT := b];
    assert SetSlot(SetSlot(m, upd, a), upd, b).mem == SetSlot(m, upd, b).mem;
  }

  /** What processes own does not depend on the directory entry. */
  lemma SettledSame(s: System, k: Kernel)
    requires Sound(s, k)
    ensures WellSized(s.m) && ROOT < |s.m.mem| && WellSized(Settled(s, k.upd).m)
    ensures forall t | t in s.procs ::
              && Table(s.procs[t]) < |s.m.mem| && Table(s.procs[t]) != k.upd
              && Settled(s, k.upd).m.mem[Table(s.procs[t])] == s.m.mem[Table(s.procs[t])]
              && Owned(Settled(s, k.upd).m, s.procs[t]) == Owned(s.m, s.procs[t])
  {
    hide FrameOf, Bit, Partition;
    var m0 := Settled(s, k.upd).m;
    assert forall f | 0 <= f < |s.m.mem| :: |s.m.mem[f]| == |m0.mem[f]|;
    forall t | t in s.procs
      ensures Table(s.procs[t]) < |s.m.mem| && Table(s.procs[t]) != k.upd
      ensures Owned(m0, s.procs[t]) == Owned(s.m, s.procs[t])
    {
      assert ProcOk(m0, k, s.procs[t]);
      OwnedSame(m0, s.m, s.procs[t]);
    }
  }

  lemma OwnedSame(m: Machine, m': Machine, p: Process)
    requires Table(p) < |m.mem| == |m'.mem| && m'.mem[Table(p)] == m.mem[Table(p)]
    ensures Owned(m', p) == Owned(m, p)
  {
    assert forall i :: 0 <= i < p.pages ==> PageFrame(m'.mem, Table(p), i) == PageFrame(m.mem, Table(p), i);
  }

  /** Installing any entry that leads to a window table, or none, makes the state right. */
  lemma InstallKeeps(s: System, k: Kernel, e: nat)
    requires Sound(s, k) && SlotWord(k, e)
    ensures Invariant(s.(m := SetSlot(s.m, k.upd, e)), k)
  {
    hide Invariant, SlotWord;
    SetSlotTwice(s.m, k.upd, 0, e);
    SetSlotKeeps(Settled(s, k.upd), k, e);
  }

  lemma InvariantIsSound(s: System, k: Kernel)
    requires Invariant(s, k)
    ensures Sound(s, k)
  {
    hide FrameOf, Bit, Partition, ProcOk, SlotWord;
    NullSlot(k);
    SetSlotKeeps(s, k, 0);
  }

  // ---------- Growing a process ----------

  /** `n` page steps in a row: each takes a frame and maps it at `lastVaddr`. */
  ghost predicate CanGrow(s: System, t: nat, n: nat, flags: nat)
    decreases n
  {
    t in s.procs && (n > 0 ==> CanTake(s.m, s.procs[t].pages, flags) && CanGrow(NextPage(s, t, flags), t, n - 1, flags))
  }

  ghost function Grow(s: System, t: nat, n: nat, flags: nat): System
    requires CanGrow(s, t, n, flags)
    decreases n
  {
    if n == 0 then s else Grow(NextPage(s, t, flags), t, n - 1, flags)
  }

  lemma FreeFrame(fr: FrameState)
    requires HintSound(fr) && Clear(fr.bits) > 0
    ensures CanGrant(fr) && Clear(Request(fr).bits) == Clear(fr.bits) - 1 && HintSound(Request(fr))
  {
    ClearFrameExists(fr.bits);
    HintedSearchIsFullScan(fr, []);
    ClearUpdate(fr.bits, Grant(fr), true);
  }

  /** Growing needs as many free frames as pages and writes to the process's own table only. */
  lemma {:induction false} GrowKeeps(s: System, k: Kernel, t: nat, n: nat, flags: nat)
    requires Invariant(s, k) && t in s.procs && Slot(s.m, k.upd) == s.procs[t].pd
    requires UserFlags(flags) && s.procs[t].pages + n <= 512 && n <= Clear(s.m.frames.bits)
    ensures CanGrow(s, t, n, flags)
    ensures var s' := Grow(s, t, n, flags);
            && Invariant(s', k) && s'.procs.Keys == s.procs.Keys && OthersKept(s, s', k, t)
            && s'.procs[t] == Process(s.procs[t].pd, s.procs[t].pages + n)
            && RowsKept(s.m, s'.m, {Table(s.procs[t])}) && PagesKept(s.m, s'.m, s.procs[t])
            && Clear(s'.m.frames.bits) == Clear(s.m.frames.bits) - n
    decreases n
  {
    hide FrameOf, Bit, Partition, Owned, ProcOk, Tree, TakePage, CanTake;
    if n > 0 {
      FreeFrame(s.m.frames);
      NextPageKeeps(s, k, t, flags);
      var s1 := NextPage(s, t, flags);
      SlotKept(s, k, t);
      GrowKeeps(s1, k, t, n - 1, flags);
    }
  }

  lemma SlotKept(s: System, k: Kernel, t: nat)
    requires Invariant(s, k) && t in s.procs
    ensures Table(s.procs[t]) != k.upd && SlotWord(k, s.procs[t].pd)
    ensures Table(s.procs[t]) in k.tables && k.tables[Table(s.procs[t])] == Node(1, k.upd, USER_SLOT)
  {
    hide FrameOf, Bit, Partition;
  }

  // ---------- Building a process ----------

  ghost predicate CanCreate(s: System, upd: nat, t: nat, n: nat, flags: nat)
  {
    && n > 0 && upd < |s.m.mem| && |s.m.mem[upd]| == 512
    && var s0 := s.(m := SetSlot(s.m, upd, 0));
       && CanTake(s0.m, 0, flags) && upd < |TakePage(s0.m, 0, flags).mem|
       && CanGrow(FirstPage(s0, upd, t, flags), t, n - 1, flags)
       && var m2 := Grow(FirstPage(s0, upd, t, flags), t, n - 1, flags).m;
          upd < |m2.mem| && |m2.mem[upd]| == 512
  }

  /** Lines 243-293 and 324 of `createTask`: save and null the slot, load n pages, restore. */
  ghost function Create(s: System, upd: nat, t: nat, n: nat, flags: nat): System
    requires CanCreate(s, upd, t, n, flags)
  {
    var s1 := FirstPage(s.(m := SetSlot(s.m, upd, 0)), upd, t, flags);
    var s2 := Grow(s1, t, n - 1, flags);
    s2.(m := SetSlot(s2.m, upd, Slot(s.m, upd)))
  }

  lemma OthersKeptTransitive(s: System, s1: System, k1: Kernel, s2: System, k2: Kernel, t: nat)
    requires OthersKept(s, s1, k1, t) && OthersKept(s1, s2, k2, t)
    ensures OthersKept(s, s2, k2, t)
  {
    hide ProcOk, Owned;
  }

  lemma SlotOnly(s: System, k: Kernel, e: nat, t: nat)
    requires Invariant(s, k) && SlotWord(k, e)
    ensures var s' := s.(m := SetSlot(s.m, k.upd, e));
            && Invariant(s', k) && OthersKept(s, s', k, t) && RowsKept(s.m, s'.m, {k.upd})
            && s'.m.mem[k.upd] == s.m.mem[k.upd][USER_SLOT := e]
            && (forall u | u in s.procs :: Owned(s'.m, s.procs[u]) == Owned(s.m, s.procs[u]))
  {
    hide FrameOf, Bit, Partition, Owned, ProcOk, Tree;
    SetSlotKeeps(s, k, e);
    var s' := s.(m := SetSlot(s.m, k.upd, e));
    assert forall u | u in s.procs ::
             Shares(s')[u] == Owned(s'.m, s.procs[u]) && Shares(s)[u] == Owned(s.m, s.procs[u]);
  }

  lemma SlotWordGrows(m: Machine, k: Kernel, k': Kernel, e: nat)
    requires WellSized(m) && TablesGrow(m, k, k') && SlotWord(k, e)
    ensures SlotWord(k', e)
  {
    hide FrameOf, Bit;
  }

  /** Null the slot and map the first page. */
  lemma BeginCreate(s: System, k: Kernel, t: nat, flags: nat) returns (k': Kernel)
    requires Invariant(s, k) && UserFlags(flags) && t !in s.procs && 2 <= Clear(s.m.frames.bits)
    ensures var s0 := s.(m := SetSlot(s.m, k.upd, 0));
            && CanTake(s0.m, 0, flags) && k.upd < |TakePage(s0.m, 0, flags).mem| && TablesGrow(s.m, k, k')
            && var s1 := FirstPage(s0, k.upd, t, flags);
               && Invariant(s1, k') && OthersKept(s, s1, k', t) && s1.procs.Keys == s.procs.Keys + {t}
               && s1.procs[t].pages == 1 && Slot(s1.m, k.upd) == s1.procs[t].pd
               && RowsKept(s.m, s1.m, {Table(s1.procs[t]), k.upd}) && Table(s1.procs[t]) != k.upd
               && s1.m.mem[k.upd] == s.m.mem[k.upd][USER_SLOT := 0][USER_SLOT := s1.procs[t].pd]
               && Clear(s1.m.frames.bits) == Clear(s.m.frames.bits) - 2
  {
    hide FrameOf, Bit, MakeEntry, Partition, Owned, ProcOk, Tree, TakePage, CanTake, SlotWord;
    var s0 := s.(m := SetSlot(s.m, k.upd, 0));
    NullSlot(k);
    SlotOnly(s, k, 0, t);
    FreeFrame(s0.m.frames);
    FreeFrame(Request(s0.m.frames));
    FirstPageRows(s0.m, k, 0, flags);
    FirstPageOwned(s0, k, t, flags);
    k' := FirstPageKeeps(s0, k, t, flags);
    var s1 := FirstPage(s0, k.upd, t, flags);
    SlotKept(s1, k', t);
    OthersKeptTransitive(s, s0, k, s1, k', t);
  }

  lemma ThreeWrites(row: seq<nat>, a: nat, b: nat)
    requires |row| == 512
    ensures row[USER_SLOT := a][USER_SLOT := b][USER_SLOT := row[USER_SLOT]] == row
  {
  }

  /** Building a process of n pages writes to its own page table only: the directory entry is
    * back to what it was, and every other process is untouched. */
  lemma CreateKeeps(s: System, k: Kernel, t: nat, n: nat, flags: nat) returns (k': Kernel)
    requires Invariant(s, k) && UserFlags(flags) && t !in s.procs
    requires 1 <= n <= 512 && n + 1 <= Clear(s.m.frames.bits)
    ensures CanCreate(s, k.upd, t, n, flags) && TablesGrow(s.m, k, k')
    ensures var s' := Create(s, k.upd, t, n, flags);
            && Invariant(s', k') && OthersKept(s, s', k', t) && s'.procs.Keys == s.procs.Keys + {t}
            && s'.procs[t].pages == n
            && RowsKept(s.m, s'.m, {Table(s'.procs[t])})
            && Slot(s'.m, k.upd) == Slot(s.m, k.upd)
            && Clear(s'.m.frames.bits) == Clear(s.m.frames.bits) - (n + 1)
  {
    hide FrameOf, Bit, MakeEntry, Partition, Owned, ProcOk, Tree, TakePage, CanTake, SlotWord, FirstPage, TablesGrow;
    k' := BeginCreate(s, k, t, flags);
    var s1 := FirstPage(s.(m := SetSlot(s.m, k.upd, 0)), k.upd, t, flags);
    GrowOnUpd(s, k, k');
    GrowKeeps(s1, k', t, n - 1, flags);
    var s2 := Grow(s1, t, n - 1, flags);
    SlotWordGrows(s.m, k, k', Slot(s.m, k.upd));
    SlotOnly(s2, k', Slot(s.m, k.upd), t);
    var s' := s2.(m := SetSlot(s2.m, k.upd, Slot(s.m, k.upd)));
    ThreeWrites(s.m.mem[k.upd], 0, s1.procs[t].pd);
    OthersKeptTransitive(s, s1, k', s2, k', t);
    OthersKeptTransitive(s, s2, k', s', k', t);
  }

  lemma GrowOnUpd(s: System, k: Kernel, k': Kernel)
    requires WellSized(s.m) && TablesGrow(s.m, k, k')
    ensures k'.upd == k.upd && k'.base == k.base
  {
  }

  /** The same from any sound state: the directory entry is put back whatever it was. */
  lemma CreateSound(s: System, k: Kernel, t: nat, n: nat, flags: nat) returns (k': Kernel)
    requires Sound(s, k) && UserFlags(flags) && t !in s.procs
    requires 1 <= n <= 512 && n + 1 <= Clear(s.m.frames.bits)
    ensures CanCreate(s, k.upd, t, n, flags) && k.upd < |s.m.mem| && WellSized(s.m) && TablesGrow(s.m, k, k')
    ensures var s' := Create(s, k.upd, t, n, flags);
            && Sound(s', k') && s'.procs.Keys == s.procs.Keys + {t} && s'.procs[t].pages == n
            && (forall u | u in s.procs :: s'.procs[u] == s.procs[u])
            && RowsKept(s.m, s'.m, {Table(s'.procs[t])})
            && Slot(s'.m, k.upd) == Slot(s.m, k.upd)
            && Clear(s'.m.frames.bits) == Clear(s.m.frames.bits) - (n + 1)
  {
    hide FrameOf, Bit, MakeEntry, Partition, Owned, ProcOk, Tree, SlotWord, FirstPage, CanGrow, Grow;
    SettledSame(s, k);
    var s0 := Settled(s, k.upd);
    k' := CreateKeeps(s0, k, t, n, flags);
    SetSlotTwice(s.m, k.upd, 0, 0);
    var s1 := Grow(FirstPage(s0, k.upd, t, flags), t, n - 1, flags);
    SetSlotTwice(s1.m, k.upd, Slot(s.m, k.upd), 0);
    assert Settled(Create(s, k.upd, t, n, flags), k.upd) == Create(s0, k.upd, t, n, flags);
    SlotKept(Create(s0, k.upd, t, n, flags), k', t);
    RowsUnsettled(s, Create(s, k.upd, t, n, flags), k.upd, {Table(Create(s, k.upd, t, n, flags).procs[t])});
  }

  /** Rows kept up to the directory entry, and the entry kept. */
  lemma RowsUnsettled(s: System, s': System, upd: nat, written: set<nat>)
    requires upd < |s.m.mem| == |s'.m.mem| && |s.m.mem[upd]| == |s'.m.mem[upd]| == 512 && upd !in written
    requires RowsKept(Settled(s, upd).m, Settled(s', upd).m, written) && Slot(s'.m, upd) == Slot(s.m, upd)
    ensures RowsKept(s.m, s'.m, written)
  {
    var a: Memory, b: Memory := Settled(s, upd).m.mem, Settled(s', upd).m.mem;
    assert a[upd] == s.m.mem[upd][USER_SLOT := 0] && b[upd] == s'.m.mem[upd][USER_SLOT := 0];
    assert s.m.mem[upd] == a[upd][USER_SLOT := Slot(s.m, upd)];
    assert s'.m.mem[upd] == b[upd][USER_SLOT := Slot(s'.m, upd)];
    assert forall g | 0 <= g < |s.m.mem| && g != upd :: a[g] == s.m.mem[g] && b[g] == s'.m.mem[g];
  }

  // ---------- Kernel threads ----------

  const KERNEL_FLAGS := 3  // PDE_P | PDE_R

  lemma KernelFlags()
    ensures FlagsOk(KERNEL_FLAGS) && !Bit(KERNEL_FLAGS, USER_BIT)
  {
    assert !Bit(3, 2) by { assert !Bit(1, 1) by { assert !Bit(0, 0); } }
    assert Bit(3, 1) by { assert Bit(1, 0); }
    assert !Bit(0, 5) by { assert !Bit(0, 4) by { assert !Bit(0, 3) by { assert !Bit(0, 2); } } }
    assert Bit(3, 7) == Bit(1, 6) == Bit(0, 5);
  }

  ghost predicate CanAddThread(m: Machine, upd: nat, i: nat)
  {
    && upd < |m.mem| && |m.mem[upd]| == 512
    && CanTake(SetSlot(m, upd, 0), i, KERNEL_FLAGS)
    && CanTake(TakePage(SetSlot(m, upd, 0), i, KERNEL_FLAGS), i + 1, KERNEL_FLAGS)
  }

  /** `createTask(func, 0, NULL, kernelPHdr)`: the header's entry is null, so the first of the
    * two pages, at `kernelPHdr->lastVaddr`, brings a table of its own, and the entry stays. */
  ghost function AddThread(m: Machine, upd: nat, i: nat): Machine
    requires CanAddThread(m, upd, i)
  {
    TakePage(TakePage(SetSlot(m, upd, 0), i, KERNEL_FLAGS), i + 1, KERNEL_FLAGS)
  }

  /** A kernel thread: its directory entry and the number of its first page. */
  datatype KThread = KThread(pd: nat, first: nat)

  /** A page of a kernel thread: writable, and closed to user code. */
  ghost predicate KernelPage(k: Kernel, e: nat)
  {
    HardPresent(e) && !Bit(e, USER_BIT) && e % PAGE_SIZE == 3 && FrameOf(e) in k.base
  }

  /** A kernel thread has a table with its two pages and nothing else. */
  ghost predicate ThreadOk(m: Machine, k: Kernel, th: KThread)
  {
    && KernelEntry(k, th.pd) && !Bit(th.pd, USER_BIT) && th.first + 2 <= 512
    && FrameOf(th.pd) < |m.mem| && |m.mem[FrameOf(th.pd)]| == 512
    && var row := m.mem[FrameOf(th.pd)];
       && KernelPage(k, row[th.first]) && KernelPage(k, row[th.first + 1])
       && (forall j | 0 <= j < 512 && j != th.first && j != th.first + 1 :: row[j] == 0)
  }

  /** The frames of a kernel thread: its table and its two pages. */
  function ThreadFrames(m: Machine, th: KThread): set<nat>
  {
    {FrameOf(th.pd), PageFrame(m.mem, FrameOf(th.pd), th.first), PageFrame(m.mem, FrameOf(th.pd), th.first + 1)}
  }

  /** The directory entry of a kernel thread: a window table among the kernel's own frames. */
  ghost predicate KernelEntry(k: Kernel, pd: nat)
  {
    SlotWord(k, pd) && HardPresent(pd) && FrameOf(pd) in k.base
  }

  lemma ThreeRequests(fr: FrameState) returns (n: nat, pt: nat, n2: nat)
    requires HintSound(fr) && Clear(fr.bits) >= 3
    ensures CanGrant(fr) && CanGrant(Request(fr)) && CanGrant(Request(Request(fr)))
    ensures n == Grant(fr) && pt == Grant(Request(fr)) && n2 == Grant(Request(Request(fr)))
    ensures n != pt && n != n2 && pt != n2 && n < |fr.bits| && pt < |fr.bits| && n2 < |fr.bits|
    ensures !fr.bits[n] && !fr.bits[pt] && !fr.bits[n2]
    ensures Request(Request(Request(fr))).bits == fr.bits[n := true][pt := true][n2 := true]
    ensures Clear(Request(Request(Request(fr))).bits) == Clear(fr.bits) - 3
  {
    FreeFrame(fr);
    FreeFrame(Request(fr));
    FreeFrame(Request(Request(fr)));
    n, pt, n2 := Grant(fr), Grant(Request(fr)), Grant(Request(Request(fr)));
  }

  ghost predicate ThreadAdded(m: Machine, k: Kernel, i: nat, m': Machine, k': Kernel, n: nat, pt: nat, n2: nat)
  {
    && i + 2 <= 512 && |m'.mem| == |m.mem| == |m.frames.bits| <= FIELD
    && n != pt && n != n2 && pt != n2 && n < |m.frames.bits| && pt < |m.frames.bits| && n2 < |m.frames.bits|
    && !m.frames.bits[n] && !m.frames.bits[pt] && !m.frames.bits[n2]
    && m'.frames.bits == m.frames.bits[n := true][pt := true][n2 := true]
    && pt !in k.tables && pt != k.upd && k' == k.(tables := k.tables[pt := Node(1, k.upd, USER_SLOT)])
    && RowsKept(m, m', {pt, k.upd}) && k.upd < |m.mem| && |m.mem[k.upd]| == 512
    && m'.mem[k.upd] == m.mem[k.upd][USER_SLOT := MakeEntry(PAGE_SIZE * pt, KERNEL_FLAGS)]
    && WindowOk(m', k') && Slot(m', k.upd) == MakeEntry(PAGE_SIZE * pt, KERNEL_FLAGS)
    && m'.mem[pt][i] == MakeEntry(PAGE_SIZE * n, KERNEL_FLAGS)
    && m'.mem[pt][i + 1] == MakeEntry(PAGE_SIZE * n2, KERNEL_FLAGS)
    && (forall j | 0 <= j < 512 && j != i && j != i + 1 :: m'.mem[pt][j] == 0)
  }

  lemma AddThreadShape(m: Machine, k: Kernel, i: nat) returns (k': Kernel, n: nat, pt: nat, n2: nat)
    requires WindowOk(m, k) && Slot(m, k.upd) == 0 && i + 2 <= 512 && Clear(m.frames.bits) >= 3
    ensures CanAddThread(m, k.upd, i) && ThreadAdded(m, k, i, AddThread(m, k.upd, i), k', n, pt, n2)
    ensures Clear(AddThread(m, k.upd, i).frames.bits) == Clear(m.frames.bits) - 3
  {
    hide FrameOf, Bit, MakeEntry, Tree, TakePage, CanTake, Grant, Request;
    KernelFlags();
    assert m.mem[k.upd][USER_SLOT := 0] == m.mem[k.upd];
    assert SetSlot(m, k.upd, 0).mem == m.mem;
    n, pt, n2 := ThreeRequests(m.frames);
    TakeFirstPage(m, k, i, KERNEL_FLAGS);
    FirstPageRows(m, k, i, KERNEL_FLAGS);
    FirstPageWindow(m, k, i, KERNEL_FLAGS);
    k' := k.(tables := k.tables[pt := Node(1, k.upd, USER_SLOT)]);
    NewEntry(pt, KERNEL_FLAGS);
    TakeNextPage(TakePage(m, i, KERNEL_FLAGS), k', i + 1, KERNEL_FLAGS);
  }

  lemma PartitionBase(bits: seq<bool>, bits': seq<bool>, base: set<nat>, own: map<nat, set<nat>>, taken: set<nat>)
    requires Partition(bits, base, own) && |bits'| == |bits|
    requires forall x | x in taken :: x < |bits| && !bits[x]
    requires forall x | 0 <= x < |bits| :: bits'[x] == (bits[x] || x in taken)
    ensures Partition(bits', base + taken, own) && base !! taken
  {
  }

  lemma BaseAside(m: Machine, k: Kernel, base: set<nat>, p: Process)
    requires WellSized(m) && ProcOk(m, k, p)
    ensures ProcOk(m, k.(base := base), p)
  {
  }

  lemma BaseAsideWindow(m: Machine, k: Kernel, base: set<nat>)
    requires WindowOk(m, k)
    ensures WindowOk(m, k.(base := base))
  {
  }

  lemma AddThreadProcs(s: System, k: Kernel, i: nat, m': Machine, k1: Kernel, n: nat, pt: nat, n2: nat)
    requires Invariant(s, k) && ThreadAdded(s.m, k, i, m', k1, n, pt, n2)
    ensures WellSized(m') && ProcsOk(s.(m := m'), k1.(base := k.base + {n, pt, n2})) && k.base !! {n, pt, n2}
  {
    hide FrameOf, Bit, MakeEntry, Partition, Owned, ProcOk, Tree, SlotWord;
    var s', k' := s.(m := m'), k1.(base := k.base + {n, pt, n2});
    FirstPageOthers(s, k, pt);
    forall u | u in s.procs
      ensures ProcOk(m', k', s.procs[u]) && Owned(m', s.procs[u]) == Owned(s.m, s.procs[u])
    {
      OwnedTaken(s.m, k, s.procs[u]);
      SlotKept(s, k, u);
      SlotWordGrows(s.m, k, k1, s.procs[u].pd);
      KeepProc(s.m, k, m', k1, s.procs[u]);
      BaseAside(m', k1, k'.base, s.procs[u]);
    }
    assert Shares(s') == Shares(s);
    PartitionBase(s.m.frames.bits, m'.frames.bits, k.base, Shares(s), {n, pt, n2});
  }

  lemma AddThreadEntry(m: Machine, k: Kernel, i: nat, m': Machine, k1: Kernel, n: nat, pt: nat, n2: nat)
    requires ThreadAdded(m, k, i, m', k1, n, pt, n2)
    ensures var k', th := k1.(base := k.base + {n, pt, n2}), KThread(Slot(m', k.upd), i);
            ThreadOk(m', k', th) && ThreadFrames(m', th) == {n, pt, n2}
  {
    hide FrameOf, Bit, MakeEntry, Tree, WindowReady;
    KernelEntries(n);
    KernelEntries(pt);
    KernelEntries(n2);
  }

  /** What the kernel's flags make of a frame. */
  lemma KernelEntries(n: nat)
    requires n < FIELD
    ensures var e := MakeEntry(PAGE_SIZE * n, KERNEL_FLAGS);
            && HardPresent(e) && SoftPresent(e) && !Bit(e, PDE_S) && !Bit(e, USER_BIT)
            && e % PAGE_SIZE == 3 && FrameOf(e) == n
  {
    KernelFlags();
    PageEntry(n, KERNEL_FLAGS);
    NewEntry(n, KERNEL_FLAGS);
  }

  /** A kernel thread takes three frames, which from then on are the kernel's, and leaves its
    * own entry installed; it writes to no table that was there before. */
  lemma AddThreadSound(s: System, k: Kernel, i: nat) returns (k': Kernel, pt: nat)
    requires Sound(s, k) && i + 2 <= 512 && Clear(s.m.frames.bits) >= 3
    ensures CanAddThread(s.m, k.upd, i) && k.upd < |s.m.mem| && |s.m.mem[k.upd]| == 512
    ensures var m' := AddThread(s.m, k.upd, i);
            && Sound(s.(m := m'), k') && k'.upd == k.upd && k.base <= k'.base && |k'.base| == |k.base| + 3
            && KernelEntry(k', Slot(m', k.upd)) && FrameOf(Slot(m', k.upd)) == pt
            && pt !in k.tables && pt !in k.base && pt != k.upd && (forall u | u in s.procs :: Table(s.procs[u]) != pt)
            && RowsKept(s.m, m', {pt, k.upd})
            && (forall j | 0 <= j < 512 && j != USER_SLOT :: m'.mem[k.upd][j] == s.m.mem[k.upd][j])
            && (forall f | f in k.tables :: f in k'.tables && k'.tables[f] == k.tables[f])
            && (forall f | f in k'.tables && f !in k.tables :: k'.tables[f].level == 1)
            && ThreadOk(m', k', KThread(Slot(m', k.upd), i))
            && ThreadFrames(m', KThread(Slot(m', k.upd), i)) == k'.base - k.base
            && Clear(m'.frames.bits) == Clear(s.m.frames.bits) - 3
  {
    hide FrameOf, Bit, MakeEntry, Partition, Owned, ProcOk, Tree, TakePage, CanTake, SlotWord, WindowReady;
    var s0 := Settled(s, k.upd);
    SetSlotTwice(s.m, k.upd, 0, 0);
    var k1, n, pt', n2 := AddThreadShape(s0.m, k, i);
    pt := pt';
    var m' := AddThread(s0.m, k.upd, i);
    assert m' == AddThread(s.m, k.upd, i);
    k' := k1.(base := k.base + {n, pt, n2});
    AddThreadProcs(s0, k, i, m', k1, n, pt, n2);
    AddThreadEntry(s0.m, k, i, m', k1, n, pt, n2);
    BaseAsideWindow(m', k1, k'.base);
    InvariantIsSound(s.(m := m'), k');
    FirstPageOthers(s0, k, pt);
    KernelEntries(pt);
    assert |{n, pt, n2}| == 3;
  }

  // ---------- Reaping a process ----------

  /** The loop of `freeTask`: `freePg(pt->entries[i])` for i from n - 1 down to 0, where the
    * whole entry is divided by the page size. */
  function ReleasePages(fr: FrameState, row: seq<nat>, n: nat): (fr': FrameState)
    requires n <= |row| && forall i | 0 <= i < n :: row[i] / PAGE_SIZE < |fr.bits|
    ensures |fr'.bits| == |fr.bits|
    decreases n
  {
    if n == 0 then fr else ReleasePages(Release(fr, row[n - 1] / PAGE_SIZE), row, n - 1)
  }

  lemma {:induction false} ReleasePagesClears(fr: FrameState, row: seq<nat>, n: nat)
    requires n <= |row| && forall i | 0 <= i < n :: row[i] / PAGE_SIZE < |fr.bits|
    requires HintSound(fr)
    ensures HintSound(ReleasePages(fr, row, n))
    ensures forall x | 0 <= x < |fr.bits| ::
              ReleasePages(fr, row, n).bits[x] == (fr.bits[x] && !exists i | 0 <= i < n :: row[i] / PAGE_SIZE == x)
    decreases n
  {
    if n > 0 {
      ReleasePagesClears(Release(fr, row[n - 1] / PAGE_SIZE), row, n - 1);
    }
  }

  ghost predicate CanFree(m: Machine, p: Process)
  {
    && Table(p) < |m.mem| && Table(p) < |m.frames.bits| && p.pages <= |m.mem[Table(p)]|
    && forall i | 0 <= i < p.pages :: m.mem[Table(p)][i] / PAGE_SIZE < |m.frames.bits|
  }

  /** Lines 91-103: the pages, then the page table. */
  ghost function FreeFrames(m: Machine, p: Process): Machine
    requires CanFree(m, p)
  {
    m.(frames := Release(ReleasePages(m.frames, m.mem[Table(p)], p.pages), Table(p)))
  }

  /** `freeTask(tid)` of a main thread: frames go back only when `pid == tid` holds between
    * the signed and the unsigned field. */
  ghost function Reap(s: System, t: nat): System
    requires t in s.procs && CanFree(s.m, s.procs[t])
  {
    System(if Int8(t) == t then FreeFrames(s.m, s.procs[t]) else s.m, s.procs - {t})
  }

  /** Reaping frees exactly the frames the process owned. */
  lemma FreeFramesClears(m: Machine, k: Kernel, p: Process)
    requires WellSized(m) && HintSound(m.frames) && ProcOk(m, k, p)
    ensures CanFree(m, p) && HintSound(FreeFrames(m, p).frames) && |FreeFrames(m, p).frames.bits| == |m.frames.bits|
    ensures forall x | 0 <= x < |m.frames.bits| ::
              FreeFrames(m, p).frames.bits[x] == (m.frames.bits[x] && x !in Owned(m, p))
  {
    hide FrameOf, Bit, SlotWord;
    var row := m.mem[Table(p)];
    assert forall i | 0 <= i < p.pages ::
             PageOk(m, k.tables, row[i]) && row[i] / PAGE_SIZE == PageFrame(m.mem, Table(p), i);
    ReleasePagesClears(m.frames, row, p.pages);
    forall x | 0 <= x < |m.frames.bits|
      ensures x in Owned(m, p) <==> x == Table(p) || exists i | 0 <= i < p.pages :: row[i] / PAGE_SIZE == x
    {
      if i :| 0 <= i < p.pages && row[i] / PAGE_SIZE == x {
        assert PageFrame(m.mem, Table(p), i) == x;
      }
    }
  }

  lemma FreeKeepsWindow(m: Machine, m': Machine, k: Kernel, p: Process)
    requires WindowOk(m, k) && ProcOk(m, k, p) && WellSized(m') && HintSound(m'.frames) && m'.mem == m.mem
    requires HardPresent(Slot(m, k.upd)) ==> FrameOf(Slot(m, k.upd)) != Table(p)
    requires forall x | 0 <= x < |m.mem| :: m'.frames.bits[x] == (m.frames.bits[x] && x !in Owned(m, p))
    ensures WindowOk(m', k.(tables := k.tables - {Table(p)}))
  {
    hide FrameOf, Bit;
    OwnedTaken(m, k, p);
    var tables' := k.tables - {Table(p)};
    forall f, i | f in tables' && 0 <= i < 512
      ensures EntryIn(m', tables', f, i)
    {
      assert EntryIn(m, k.tables, f, i);
    }
    assert EntryIn(m, k.tables, ROOT, 0) && EntryIn(m, k.tables, k.upd, USER_SLOT);
    var pdt := FrameOf(m.mem[ROOT][0]);
    assert EntryIn(m, k.tables, pdt, 1);
  }

  lemma FreeKeepsOthers(s: System, k: Kernel, s': System, t: nat)
    requires WellSized(s.m) && WellSized(s'.m) && ProcsOk(s, k) && t in s.procs
    requires s'.m.mem == s.m.mem && s'.procs == s.procs - {t}
    requires forall x | 0 <= x < |s.m.mem| ::
               s'.m.frames.bits[x] == (s.m.frames.bits[x] && x !in Owned(s.m, s.procs[t]))
    ensures ProcsOk(s', k.(tables := k.tables - {Table(s.procs[t])}))
    ensures OthersKept(s, s', k.(tables := k.tables - {Table(s.procs[t])}), t)
    ensures Shares(s') == Shares(s) - {t}
  {
    hide FrameOf, Bit, ProcOk, Owned;
    var k' := k.(tables := k.tables - {Table(s.procs[t])});
    TablesDiffer(s, k, t);
    forall u | u in s.procs && u != t
      ensures ProcOk(s'.m, k', s.procs[u]) && Owned(s'.m, s.procs[u]) == Owned(s.m, s.procs[u])
    {
      OwnedTaken(s.m, k, s.procs[u]);
      assert Shares(s)[u] !! Shares(s)[t];
      KeepWithoutTable(s.m, k, s.procs[u], Table(s.procs[t]));
      KeepProc(s.m, k, s'.m, k', s.procs[u]);
    }
    assert Shares(s') == Shares(s) - {t};
    PartitionFree(s.m.frames.bits, s'.m.frames.bits, k.base, Shares(s), t);
  }

  lemma KeepWithoutTable(m: Machine, k: Kernel, p: Process, gone: nat)
    requires WellSized(m) && ProcOk(m, k, p) && Table(p) != gone
    ensures SlotWord(k.(tables := k.tables - {gone}), p.pd)
  {
    hide FrameOf, Bit;
  }

  /** Reaping a main thread gives back exactly its page table and its pages, whatever the
    * directory entry holds meanwhile. */
  lemma ReapKeeps(s: System, k: Kernel, t: nat)
    requires Sound(s, k) && t in s.procs && t < 128
    ensures CanFree(s.m, s.procs[t])
    ensures var s' := Reap(s, t);
            && Sound(s', k.(tables := k.tables - {Table(s.procs[t])}))
            && s'.m.mem == s.m.mem
            && (forall x | 0 <= x < |s.m.mem| ::
                  s'.m.frames.bits[x] == (s.m.frames.bits[x] && x !in Owned(s.m, s.procs[t])))
  {
    hide FrameOf, Bit, Partition, Owned, ProcOk, Tree, FreeFrames, CanFree, SlotWord;
    SettledSame(s, k);
    ZeroEntry();
    var s0, p := Settled(s, k.upd), s.procs[t];
    FreeFramesClears(s0.m, k, p);
    FreeSame(s0.m, s.m, p);
    FreeFramesMem(s0.m, p);
    FreeFramesMem(s.m, p);
    var s' := Settled(Reap(s, t), k.upd);
    assert s'.m.frames == FreeFrames(s0.m, p).frames;
    FreeKeepsWindow(s0.m, s'.m, k, p);
    FreeKeepsOthers(s0, k, s', t);
  }

  lemma FreeFramesMem(m: Machine, p: Process)
    requires CanFree(m, p)
    ensures FreeFrames(m, p).mem == m.mem
  {
  }

  lemma FreeSame(m: Machine, m': Machine, p: Process)
    requires CanFree(m, p) && m'.frames == m.frames && |m'.mem| == |m.mem| && m'.mem[Table(p)] == m.mem[Table(p)]
    ensures CanFree(m', p) && FreeFrames(m', p).frames == FreeFrames(m, p).frames
  {
    hide FrameOf, ReleasePages;
  }

  /** A process whose number does not fit `int8_t` is never given back: reaping keeps every
    * frame accounted for exactly when tid < 128. */
  lemma ReapAccountsIffTidFits(s: System, k: Kernel, t: nat)
    requires Sound(s, k) && t in s.procs && t < 255
    ensures CanFree(s.m, s.procs[t])
    ensures Partition(Reap(s, t).m.frames.bits, k.base, Shares(Reap(s, t))) <==> t < 128
  {
    hide FrameOf, Bit, Partition, Owned, ProcOk, Tree, FreeFrames, CanFree, SlotWord;
    SettledSame(s, k);
    var s0 := Settled(s, k.upd);
    assert Shares(s0) == Shares(s);
    FreeFramesClears(s0.m, k, s.procs[t]);
    FreeSame(s0.m, s.m, s.procs[t]);
    if t < 128 {
      ReapKeeps(s, k, t);
      var s' := Reap(s, t);
      SettledSame(s', k.(tables := k.tables - {Table(s.procs[t])}));
      assert Shares(Settled(s', k.upd)) == Shares(s');
    } else {
      LeakedFrame(s0, k, t, System(s0.m, s0.procs - {t}));
      assert Shares(Reap(s, t)) == Shares(System(s0.m, s0.procs - {t}));
    }
  }

  lemma LeakedFrame(s: System, k: Kernel, t: nat, s': System)
    requires Invariant(s, k) && t in s.procs && s' == System(s.m, s.procs - {t})
    ensures !Partition(s'.m.frames.bits, k.base, Shares(s'))
  {
    hide FrameOf, Bit, Tree, WindowReady, SlotWord, ProcOk, Partition;
    assert Table(s.procs[t]) in Shares(s)[t];
    assert Shares(s') == Shares(s) - {t};
    PartitionLeak(s.m.frames.bits, k.base, Shares(s), t, Table(s.procs[t]));
  }

  lemma PartitionLeak(bits: seq<bool>, base: set<nat>, own: map<nat, set<nat>>, t: nat, x: nat)
    requires Partition(bits, base, own) && t in own && x in own[t]
    ensures !Partition(bits, base, own - {t})
  {
    assert InUse(bits, base, own[t]);
    assert bits[x] && x !in base && forall u | u in own && u != t :: x !in own[u];
  }

  // ---------- Address-space isolation ----------

  /** What a task sees at an address while its directory entry `pd` is installed. */
  ghost function View(m: Machine, upd: nat, pd: nat, v: nat): Translation
    requires WellSized(m) && upd < |m.mem| && ROOT < |m.mem|
  {
    Translate(SetSlot(m, upd, pd).mem, v)
  }

  /** A walk with another table in the slot never meets table `w`. */
  lemma {:induction false} WalkAvoids(m1: Machine, m2: Machine, k: Kernel, w: nat, g: nat, v: nat)
    requires Good(m1, k.tables) && WellSized(m2) && |m2.mem| == |m1.mem|
    requires k.upd in k.tables && FrameOf(Slot(m1, k.upd)) != w
    requires w in k.tables ==> k.tables[w] == Node(1, k.upd, USER_SLOT)
    requires forall f | f in k.tables && f != w :: m2.mem[f] == m1.mem[f]
    requires g in k.tables && g != w
    ensures Walk(m2.mem, g, k.tables[g].level, v) == Walk(m1.mem, g, k.tables[g].level, v)
    decreases k.tables[g].level
  {
    hide FrameOf, Bit;
    var level := k.tables[g].level;
    var i := Index(v, level);
    assert EntryIn(m1, k.tables, g, i);
    if level > 1 && HardPresent(m1.mem[g][i]) {
      WalkAvoids(m1, m2, k, w, FrameOf(m1.mem[g][i]), v);
    }
  }

  /** A step that writes only to table `w` and to the slot does not change what a task
    * with another table sees, at any address. */
  lemma ViewKept(m: Machine, k: Kernel, m': Machine, pd: nat, w: nat)
    requires WindowOk(m, k) && SlotWord(k, pd) && WellSized(m') && RowsKept(m, m', {w, k.upd}) && w != k.upd
    requires forall j | 0 <= j < 512 && j != USER_SLOT :: m'.mem[k.upd][j] == m.mem[k.upd][j]
    requires FrameOf(pd) != w && (w in k.tables ==> k.tables[w] == Node(1, k.upd, USER_SLOT))
    ensures k.upd < |m.mem| && ROOT < |m.mem|
    ensures forall v: nat :: View(m', k.upd, pd, v) == View(m, k.upd, pd, v)
  {
    hide FrameOf, Bit;
    var m1, m2 := SetSlot(m, k.upd, pd), SetSlot(m', k.upd, pd);
    SetSlotGood(m, k, pd);
    assert m2.mem[k.upd] == m1.mem[k.upd];
    forall v: nat
      ensures View(m', k.upd, pd, v) == View(m, k.upd, pd, v)
    {
      WalkAvoids(m1, m2, k, w, ROOT, v);
    }
  }

  /** A process sees its own pages, in order from the start of the window, and nothing else
    * in the rest of it. */
  lemma ProcessSees(s: System, k: Kernel, t: nat, i: nat, offset: nat)
    requires Sound(s, k) && t in s.procs && i < 512 && offset < PAGE_SIZE
    ensures WellSized(s.m) && k.upd < |s.m.mem| && ROOT < |s.m.mem| && Table(s.procs[t]) < |s.m.mem|
    ensures var seen := View(s.m, k.upd, s.procs[t].pd, PageAddr(i) + offset);
            && seen == (if i < s.procs[t].pages then LeafOf(s.m.mem[Table(s.procs[t])][i]) else Absent)
            && (i < s.procs[t].pages ==> seen.Page? && seen.frame in Owned(s.m, s.procs[t]) && seen.flags == 7)
  {
    hide FrameOf, Bit, Partition, Owned;
    ZeroEntryAbsent();
    var p, v := s.procs[t], PageAddr(i) + offset;
    SettledSame(s, k);
    var m := Installed(s, k, t);
    OffsetIndices(i, offset);
    var pdt := FrameOf(m.mem[ROOT][0]);
    assert EntryIn(m, k.tables, ROOT, 0) && EntryIn(m, k.tables, pdt, 1);
    assert Walk(m.mem, k.upd, 2, v) == Walk(m.mem, Table(p), 1, v);
    assert Walk(m.mem, pdt, 3, v) == Walk(m.mem, k.upd, 2, v);
    if i < p.pages {
      PageOwned(s.m, p, i);
      assert PageOk(m, k.tables, m.mem[Table(p)][i]);
    }
  }

  lemma PageOwned(m: Machine, p: Process, i: nat)
    requires i < p.pages && Table(p) < |m.mem| && i < |m.mem[Table(p)]|
    ensures FrameOf(m.mem[Table(p)][i]) in Owned(m, p)
  {
    assert PageFrame(m.mem, Table(p), i) in Owned(m, p);
  }

  /** The machine with the entry of a process installed. */
  lemma Installed(s: System, k: Kernel, t: nat) returns (m: Machine)
    requires Sound(s, k) && t in s.procs
    ensures k.upd < |s.m.mem| && m == SetSlot(s.m, k.upd, s.procs[t].pd)
    ensures WindowOk(m, k) && ProcOk(m, k, s.procs[t]) && Slot(m, k.upd) == s.procs[t].pd
    ensures Table(s.procs[t]) != k.upd && m.mem[Table(s.procs[t])] == s.m.mem[Table(s.procs[t])]
  {
    hide FrameOf, Bit, Partition, Owned;
    SettledSame(s, k);
    SlotKept(Settled(s, k.upd), k, t);
    InstallKeeps(s, k, s.procs[t].pd);
    m := SetSlot(s.m, k.upd, s.procs[t].pd);
  }

  /** User code may use every entry on the way to the page. */
  predicate UserWalk(mem: Memory, f: nat, level: nat, v: nat)
    requires 1 <= level <= 4 && f < |mem| && forall g | 0 <= g < |mem| :: |mem[g]| == 512
    decreases level
  {
    var e := mem[f][Index(v, level)];
    && HardPresent(e) && Bit(e, USER_BIT)
    && (level > 1 ==> FrameOf(e) < |mem| && UserWalk(mem, FrameOf(e), level - 1, v))
  }

  /** A dispatched process can reach all of its pages from user mode. */
  lemma PagesAreUserAccessible(s: System, k: Kernel, t: nat, i: nat, offset: nat)
    requires Sound(s, k) && t in s.procs && i < s.procs[t].pages && offset < PAGE_SIZE
    ensures WellSized(s.m) && k.upd < |s.m.mem| && ROOT < |s.m.mem|
    ensures UserWalk(SetSlot(s.m, k.upd, s.procs[t].pd).mem, ROOT, 4, PageAddr(i) + offset)
  {
    hide FrameOf, Bit, Partition, Owned;
    var p, v := s.procs[t], PageAddr(i) + offset;
    SettledSame(s, k);
    var m := Installed(s, k, t);
    OffsetIndices(i, offset);
    var pdt := FrameOf(m.mem[ROOT][0]);
    assert EntryIn(m, k.tables, ROOT, 0) && EntryIn(m, k.tables, pdt, 1);
    assert PageOk(m, k.tables, m.mem[Table(p)][i]);
    assert UserWalk(m.mem, Table(p), 1, v);
    assert UserWalk(m.mem, k.upd, 2, v);
    assert UserWalk(m.mem, pdt, 3, v);
  }

  lemma ZeroEntryAbsent()
    ensures LeafOf(0) == Absent
  {
    ZeroEntry();
  }

  lemma OffsetIndices(i: nat, offset: nat)
    requires i < 512 && offset < PAGE_SIZE
    ensures forall l | 1 <= l <= 4 :: Index(PageAddr(i) + offset, l) == Index(PageAddr(i), l)
    ensures Index(PageAddr(i), 4) == 0 && Index(PageAddr(i), 3) == 1
    ensures Index(PageAddr(i), 2) == USER_SLOT && Index(PageAddr(i), 1) == i
  {
    WindowIndices(i);
    SamePageIndices(PageAddr(i), PageAddr(i) + offset);
  }

  /** Two processes never see the same frame through the window. */
  lemma NoSharedFrames(s: System, k: Kernel, t: nat, u: nat, i: nat, j: nat, a: nat, b: nat)
    requires Sound(s, k) && t in s.procs && u in s.procs && t != u
    requires i < 512 && j < 512 && a < PAGE_SIZE && b < PAGE_SIZE
    ensures WellSized(s.m) && k.upd < |s.m.mem| && ROOT < |s.m.mem|
    ensures var x := View(s.m, k.upd, s.procs[t].pd, PageAddr(i) + a);
            var y := View(s.m, k.upd, s.procs[u].pd, PageAddr(j) + b);
            x.Page? && y.Page? ==> x.frame != y.frame
  {
    hide FrameOf, Bit, Tree, ProcOk, SlotWord, View, Owned;
    SettledSame(s, k);
    ProcessSees(s, k, t, i, a);
    ProcessSees(s, k, u, j, b);
    assert Shares(Settled(s, k.upd))[t] !! Shares(Settled(s, k.upd))[u];
  }

  // ---------- What a dispatched task runs on ----------

  /** Page i of the window is page i of process p, open to user code, or absent past the end. */
  ghost predicate ShowsAt(m: Machine, p: Process, i: nat, offset: nat)
    requires WellSized(m) && ROOT < |m.mem|
  {
    var v := PageAddr(i) + offset;
    if i < p.pages then
      && UserWalk(m.mem, ROOT, 4, v) && PageFrame(m.mem, Table(p), i) in Owned(m, p)
      && Translate(m.mem, v) == Page(PageFrame(m.mem, Table(p), i), 7)
    else Translate(m.mem, v) == Absent
  }

  /** The whole window is that of process p. */
  ghost predicate ShowsProcess(m: Machine, p: Process)
  {
    && WellSized(m) && ROOT < |m.mem|
    && forall i: nat, offset: nat | i < 512 && offset < PAGE_SIZE :: ShowsAt(m, p, i, offset)
  }

  lemma InstalledShows(s: System, k: Kernel, t: nat)
    requires Sound(s, k) && t in s.procs
    ensures k.upd < |s.m.mem| && |s.m.mem[k.upd]| == 512
    ensures var m := SetSlot(s.m, k.upd, s.procs[t].pd);
            ShowsProcess(m, s.procs[t]) && Owned(m, s.procs[t]) == Owned(s.m, s.procs[t])
  {
    hide FrameOf, Bit, Partition, Owned, Walk, UserWalk, ProcOk, Tree;
    SettledSame(s, k);
    var p := s.procs[t];
    var m := Installed(s, k, t);
    OwnedSame(s.m, m, p);
    forall i: nat, offset: nat | i < 512 && offset < PAGE_SIZE
      ensures ShowsAt(m, p, i, offset)
    {
      ProcessSees(s, k, t, i, offset);
      if i < p.pages {
        PagesAreUserAccessible(s, k, t, i, offset);
      }
    }
  }

  /** Page i of the window is one of the two pages of a kernel thread, or absent; the walk goes
    * through the thread's own table and is closed to user code. */
  ghost predicate ShowsThreadAt(m: Machine, th: KThread, i: nat, offset: nat)
    requires WellSized(m) && ROOT < |m.mem|
  {
    var v, pt := PageAddr(i) + offset, FrameOf(th.pd);
    && Reach(m.mem, ROOT, 4, v) == Some(pt) && !UserWalk(m.mem, ROOT, 4, v)
    && Translate(m.mem, v) ==
       if i == th.first || i == th.first + 1 then Page(PageFrame(m.mem, pt, i), 3) else Absent
  }

  ghost predicate ShowsThread(m: Machine, th: KThread)
  {
    && WellSized(m) && ROOT < |m.mem|
    && forall i: nat, offset: nat | i < 512 && offset < PAGE_SIZE :: ShowsThreadAt(m, th, i, offset)
  }

  lemma InstalledShowsThread(s: System, k: Kernel, th: KThread)
    requires Sound(s, k) && ThreadOk(s.m, k, th)
    ensures k.upd < |s.m.mem| && |s.m.mem[k.upd]| == 512
    ensures var m := SetSlot(s.m, k.upd, th.pd);
            ShowsThread(m, th) && ThreadFrames(m, th) == ThreadFrames(s.m, th)
  {
    hide FrameOf, Bit, Partition, Owned, ProcOk;
    InstallKeeps(s, k, th.pd);
    var m := SetSlot(s.m, k.upd, th.pd);
    ZeroEntryAbsent();
    var pt := FrameOf(th.pd);
    assert pt != k.upd;
    assert m.mem[pt] == s.m.mem[pt];
    forall i: nat, offset: nat | i < 512 && offset < PAGE_SIZE
      ensures ShowsThreadAt(m, th, i, offset)
    {
      var v := PageAddr(i) + offset;
      OffsetIndices(i, offset);
      var pdt := FrameOf(m.mem[ROOT][0]);
      assert EntryIn(m, k.tables, ROOT, 0) && EntryIn(m, k.tables, pdt, 1);
      assert !UserWalk(m.mem, k.upd, 2, v) && Walk(m.mem, k.upd, 2, v) == Walk(m.mem, pt, 1, v);
      assert !UserWalk(m.mem, pdt, 3, v) && Walk(m.mem, pdt, 3, v) == Walk(m.mem, k.upd, 2, v);
      assert Reach(m.mem, k.upd, 2, v) == Some(pt) && Reach(m.mem, pdt, 3, v) == Reach(m.mem, k.upd, 2, v);
    }
  }

  // ---------- Outside the window ----------

  /** The walk of v from g does not go through the directory entry of the window. */
  ghost predicate Avoids(m: Machine, k: Kernel, g: nat, v: nat)
    requires Good(m, k.tables) && g in k.tables
  {
    match k.tables[g].level
    case 4 => !(Index(v, 4) == 0 && Index(v, 3) == 1 && Index(v, 2) == USER_SLOT)
    case 3 => !(g == FrameOf(m.mem[ROOT][0]) && Index(v, 3) == 1 && Index(v, 2) == USER_SLOT)
    case 2 => !(g == k.upd && Index(v, 2) == USER_SLOT)
    case _ => true
  }

  lemma {:induction false} NotThroughSlot(m: Machine, k: Kernel, e: nat, g: nat, v: nat)
    requires Good(m, k.tables) && WindowReady(m, k.tables, k.upd) && g in k.tables && Avoids(m, k, g, v)
    ensures Walk(SetSlot(m, k.upd, e).mem, g, k.tables[g].level, v) == Walk(m.mem, g, k.tables[g].level, v)
    decreases k.tables[g].level
  {
    hide FrameOf, Bit;
    var level := k.tables[g].level;
    var x := m.mem[g][Index(v, level)];
    var pdt := FrameOf(m.mem[ROOT][0]);
    assert EntryIn(m, k.tables, ROOT, 0) && EntryIn(m, k.tables, pdt, 1) && EntryIn(m, k.tables, g, Index(v, level));
    if level > 1 && HardPresent(x) {
      NotThroughSlot(m, k, e, FrameOf(x), v);
    }
  }

  /** Whatever is installed, addresses outside the window translate the same. */
  lemma OutsideKept(s: System, k: Kernel, e: nat, v: nat)
    requires Sound(s, k) && PageOf(v) / 512 != WINDOW_BLOCK
    ensures WellSized(s.m) && k.upd < |s.m.mem| && ROOT < |s.m.mem|
    ensures Translate(SetSlot(s.m, k.upd, e).mem, v) == Translate(s.m.mem, v)
  {
    hide FrameOf, Bit, PageOf, ProcOk, Partition, Walk;
    SettledSame(s, k);
    WindowBlock(v);
    var m0 := Settled(s, k.upd).m;
    NotThroughSlot(m0, k, e, ROOT, v);
    NotThroughSlot(m0, k, Slot(s.m, k.upd), ROOT, v);
    SetSlotTwice(s.m, k.upd, 0, e);
    SetSlotTwice(s.m, k.upd, 0, Slot(s.m, k.upd));
    assert s.m.mem[k.upd][USER_SLOT := Slot(s.m, k.upd)] == s.m.mem[k.upd];
    assert SetSlot(s.m, k.upd, Slot(s.m, k.upd)).mem == s.m.mem;
  }

  /** No directory entry but that of the window lets user code through. */
  ghost predicate Closed(m: Machine, k: Kernel)
  {
    ShutBut(m, k.tables, k.upd, USER_SLOT)
  }

  /** So user code reaches nothing outside the window, whatever is installed. */
  lemma ClosedToUsers(s: System, k: Kernel, v: nat)
    requires Sound(s, k) && Closed(s.m, k) && PageOf(v) / 512 != WINDOW_BLOCK
    ensures WellSized(s.m) && ROOT < |s.m.mem| && !UserWalk(s.m.mem, ROOT, 4, v)
  {
    hide FrameOf, Bit, PageOf, ProcOk, Partition;
    SettledSame(s, k);
    WindowBlock(v);
    var m0 := Settled(s, k.upd).m;
    var pdt := FrameOf(m0.mem[ROOT][0]);
    assert EntryIn(m0, k.tables, ROOT, 0) && EntryIn(m0, k.tables, pdt, 1);
    assert EntryIn(m0, k.tables, ROOT, Index(v, 4));
    var e4 := s.m.mem[ROOT][Index(v, 4)];
    if HardPresent(e4) {
      var c3 := FrameOf(e4);
      assert EntryIn(m0, k.tables, c3, Index(v, 3));
      var e3 := s.m.mem[c3][Index(v, 3)];
      if HardPresent(e3) {
        assert ShutAt(s.m, FrameOf(e3), Index(v, 2));
        assert !UserWalk(s.m.mem, FrameOf(e3), 2, v);
      }
      assert !UserWalk(s.m.mem, c3, 3, v);
    }
  }
}
