/** Runs of the memory side of the kernel: processes and kernel threads are created, grown,
  * dispatched and reaped in any order (src/kernel/task/task.cpp). */
module ProcessRuns {
  import opened Frames
  import opened PageEntries
  import opened PageTables
  import opened UserSpace
  import opened Lifecycle

  /** The processes, `kernelPHdr->lastVaddr` as a page count, and the kernel threads. */
  datatype World = World(sys: System, kernelPages: nat, threads: map<nat, KThread>)

  ghost predicate WorldOk(w: World, k: Kernel)
  {
    Sound(w.sys, k) && Closed(w.sys.m, k) && ThreadsOk(w, k)
  }

  /** Kernel threads have tables and pages of their own. */
  ghost predicate ThreadsOk(w: World, k: Kernel)
  {
    && (forall t | t in w.threads :: ThreadOk(w.sys.m, k, w.threads[t]) && t !in w.sys.procs)
    && (forall t, u | t in w.threads && u in w.threads && t != u ::
          ThreadFrames(w.sys.m, w.threads[t]) !! ThreadFrames(w.sys.m, w.threads[u]))
  }

  datatype Op =
    | CreateProcess(tid: nat, pages: nat)     // createTask(args, 3, ppid): load, stack and argument pages
    | CreateThread(tid: nat, withArgs: bool)  // createTask(func, 3, args, PCB): 2 pages, 3 with arguments
    | KernelThread(tid: nat)                  // createTask(func, 0, NULL, kernelPHdr)
    | Dispatch(tid: nat)                      // schedule installs PCB->pd
    | FreeTask(tid: nat)                      // the reaper

  function ThreadPages(withArgs: bool): nat
  {
    if withArgs then 3 else 2
  }

  ghost predicate InRange(s: System, upd: nat)
  {
    upd < |s.m.mem| && |s.m.mem[upd]| == 512
  }

  /** When each operation may happen: numbers are unused, pages fit the window, frames are
    * free, and a number that is freed fits `pid`. */
  ghost predicate Enabled(w: World, op: Op)
  {
    var procs, free := w.sys.procs, Clear(w.sys.m.frames.bits);
    match op
    case CreateProcess(t, n) => t !in procs && t !in w.threads && t < 255 && 2 <= n <= 512 && n + 1 <= free
    case CreateThread(t, a) => t in procs && procs[t].pages + ThreadPages(a) <= 512 && ThreadPages(a) <= free
    case KernelThread(t) => t !in procs && t !in w.threads && t < 255 && w.kernelPages + 2 <= 512 && 3 <= free
    case Dispatch(t) => t in procs || t in w.threads
    case FreeTask(t) => t in procs && t < 128
  }

  ghost function Install(s: System, upd: nat, e: nat): System
    requires InRange(s, upd)
  {
    s.(m := SetSlot(s.m, upd, e))
  }

  /** The entry that `schedule` installs for task t. */
  function EntryOf(w: World, t: nat): nat
    requires t in w.sys.procs || t in w.threads
  {
    if t in w.sys.procs then w.sys.procs[t].pd else w.threads[t].pd
  }

  /** The state after an operation. */
  ghost predicate Next(w: World, upd: nat, op: Op, w': World)
    requires InRange(w.sys, upd)
  {
    var s := w.sys;
    match op
    case CreateProcess(t, n) =>
      CanCreate(s, upd, t, n, USER_FLAGS) && w' == w.(sys := Create(s, upd, t, n, USER_FLAGS))
    case CreateThread(t, a) =>
      && t in s.procs && CanGrow(Install(s, upd, s.procs[t].pd), t, ThreadPages(a), USER_FLAGS)
      && w' == w.(sys := Grow(Install(s, upd, s.procs[t].pd), t, ThreadPages(a), USER_FLAGS))
    case KernelThread(t) =>
      && CanAddThread(s.m, upd, w.kernelPages)
      && var m' := AddThread(s.m, upd, w.kernelPages);
         && upd < |m'.mem| && |m'.mem[upd]| == 512
         && w' == World(s.(m := m'), w.kernelPages + 2, w.threads[t := KThread(Slot(m', upd), w.kernelPages)])
    case Dispatch(t) => (t in s.procs || t in w.threads) && w' == w.(sys := Install(s, upd, EntryOf(w, t)))
    case FreeTask(t) => t in s.procs && CanFree(s.m, s.procs[t]) && w' == w.(sys := Reap(s, t))
  }

  // ---------- What a step leaves alone ----------

  /** Process u neither lost nor gained anything, and sees the same at every address. */
  ghost predicate Bystander(s: System, s': System, upd: nat, u: nat)
  {
    && WellSized(s.m) && WellSized(s'.m) && |s'.m.mem| == |s.m.mem| && upd < |s.m.mem| && ROOT < |s.m.mem|
    && u in s.procs && u in s'.procs && s'.procs[u] == s.procs[u]
    && Owned(s'.m, s'.procs[u]) == Owned(s.m, s.procs[u])
    && SameView(s.m, s'.m, upd, s.procs[u].pd)
  }

  ghost predicate SameView(m: Machine, m': Machine, upd: nat, pd: nat)
    requires WellSized(m) && WellSized(m') && |m'.mem| == |m.mem| && upd < |m.mem| && ROOT < |m.mem|
  {
    forall v: nat :: View(m', upd, pd, v) == View(m, upd, pd, v)
  }

  ghost predicate ThreadKept(s: System, s': System, k: Kernel, k': Kernel, pd: nat)
    requires WellSized(s.m) && WellSized(s'.m) && |s'.m.mem| == |s.m.mem| && k.upd < |s.m.mem| && ROOT < |s.m.mem|
  {
    && KernelEntry(k', pd) && SameView(s.m, s'.m, k.upd, pd)
    && FrameOf(pd) < |s.m.mem| && s'.m.mem[FrameOf(pd)] == s.m.mem[FrameOf(pd)]
  }

  /** Kernel threads keep their tables and their view. */
  ghost predicate ThreadsKept(s: System, k: Kernel, s': System, k': Kernel)
  {
    && WellSized(s.m) && WellSized(s'.m) && |s'.m.mem| == |s.m.mem| && k.upd < |s.m.mem| && ROOT < |s.m.mem|
    && forall pd: nat | KernelEntry(k, pd) :: ThreadKept(s, s', k, k', pd)
  }

  /** The process an operation is about; dispatching changes nobody's memory. */
  function Touched(op: Op): set<nat>
  {
    if op.Dispatch? || op.KernelThread? then {} else {op.tid}
  }

  /** What every operation keeps. Only kernel threads make the kernel's share grow. */
  ghost predicate StepOk(s: System, k: Kernel, s': System, k': Kernel, op: Op)
  {
    && Sound(s', k') && k'.upd == k.upd && |s'.m.mem| == |s.m.mem|
    && k.base <= k'.base && |k'.base| == |k.base| + (if op.KernelThread? then 3 else 0)
    && ThreadsKept(s, k, s', k') && (Closed(s.m, k) ==> Closed(s'.m, k'))
    && (forall u | u in s.procs && u !in Touched(op) :: Bystander(s, s', k.upd, u))
    && (forall u | u in s'.procs && u !in Touched(op) :: u in s.procs)
  }

  /** Only table w and the slot were written. */
  ghost predicate WroteOnly(m: Machine, m': Machine, upd: nat, w: nat)
  {
    && RowsKept(m, m', {w, upd}) && w != upd && upd < |m.mem| && |m.mem[upd]| == |m'.mem[upd]| == 512
    && (forall j | 0 <= j < 512 && j != USER_SLOT :: m'.mem[upd][j] == m.mem[upd][j])
  }

  lemma ViewKeptSound(s: System, k: Kernel, m': Machine, pd: nat, w: nat)
    requires Sound(s, k) && SlotWord(k, pd) && WellSized(m') && WroteOnly(s.m, m', k.upd, w)
    requires FrameOf(pd) != w && (w in k.tables ==> k.tables[w] == Node(1, k.upd, USER_SLOT))
    ensures WellSized(s.m) && k.upd < |s.m.mem| && ROOT < |s.m.mem| && SameView(s.m, m', k.upd, pd)
  {
    hide FrameOf, Bit, Partition, ProcOk, SlotWord, Tree;
    SettledSame(s, k);
    SetSlotTwice(s.m, k.upd, 0, pd);
    var m0 := Settled(s, k.upd).m;
    ViewKept(m0, k, m', pd, w);
    forall v: nat
      ensures View(m', k.upd, pd, v) == View(s.m, k.upd, pd, v)
    {
      assert View(m0, k.upd, pd, v) == View(s.m, k.upd, pd, v);
    }
  }

  /** Writing to the table of one process, or to a new one, and to the slot. */
  lemma Bystanders(s: System, k: Kernel, s': System, k': Kernel, touched: set<nat>, w: nat)
    requires Sound(s, k) && WellSized(s'.m) && WroteOnly(s.m, s'.m, k.upd, w)
    requires w in k.tables ==> k.tables[w] == Node(1, k.upd, USER_SLOT)
    requires w !in k.base && k'.upd == k.upd && k.base <= k'.base
    requires forall f | f in k.base && f in k.tables :: f in k'.tables && k'.tables[f] == k.tables[f]
    requires forall f | f in k'.tables && k'.tables[f].level == 2 :: f in k.tables && k.tables[f].level == 2 && f != w
    requires forall u | u in s.procs && u !in touched ::
               u in s'.procs && s'.procs[u] == s.procs[u] && Table(s.procs[u]) != w
    ensures forall u | u in s.procs && u !in touched :: Bystander(s, s', k.upd, u)
    ensures ThreadsKept(s, k, s', k') && (Closed(s.m, k) ==> Closed(s'.m, k'))
  {
    hide FrameOf, Bit, Partition, Owned, ProcOk, Tree, View, Closed;
    SettledSame(s, k);
    ClosedKept(s.m, k, s'.m, k', w);
    forall u | u in s.procs && u !in touched
      ensures Bystander(s, s', k.upd, u)
    {
      SlotKept(Settled(s, k.upd), k, u);
      ViewKeptSound(s, k, s'.m, s.procs[u].pd, w);
      OwnedSame(s.m, s'.m, s.procs[u]);
    }
    forall pd: nat | KernelEntry(k, pd)
      ensures ThreadKept(s, s', k, k', pd)
    {
      ViewKeptSound(s, k, s'.m, pd, w);
      EntryTable(s, k, pd);
    }
  }

  lemma ClosedKept(m: Machine, k: Kernel, m': Machine, k': Kernel, w: nat)
    requires WellSized(m) && WellSized(m') && WroteOnly(m, m', k.upd, w) && k'.upd == k.upd
    requires forall f | f in k'.tables && k'.tables[f].level == 2 :: f in k.tables && k.tables[f].level == 2 && f != w
    ensures Closed(m, k) ==> Closed(m', k')
  {
    hide Bit;
    if Closed(m, k) {
      forall f, i: nat | f in k'.tables && k'.tables[f].level == 2 && i < 512 && !(f == k.upd && i == USER_SLOT)
        ensures ShutAt(m', f, i)
      {
        assert ShutAt(m, f, i);
      }
    }
  }

  lemma EntryTable(s: System, k: Kernel, pd: nat)
    requires Sound(s, k) && KernelEntry(k, pd)
    ensures FrameOf(pd) < |s.m.mem| && FrameOf(pd) != k.upd
  {
    hide FrameOf, Bit, Partition, ProcOk;
  }

  /** A process's table is not the kernel's, and no other process's. */
  lemma TableApart(s: System, k: Kernel, t: nat)
    requires Sound(s, k) && t in s.procs
    ensures Table(s.procs[t]) !in k.base && Table(s.procs[t]) != k.upd && SlotWord(k, s.procs[t].pd)
    ensures Table(s.procs[t]) in k.tables && k.tables[Table(s.procs[t])] == Node(1, k.upd, USER_SLOT)
    ensures forall u | u in s.procs && u != t :: Table(s.procs[u]) != Table(s.procs[t])
  {
    hide FrameOf, Bit, ProcOk, SlotWord, Tree;
    var s0 := Settled(s, k.upd);
    SlotKept(s0, k, t);
    TablesDiffer(s0, k, t);
    assert Table(s.procs[t]) in Shares(s0)[t];
  }

  // ---------- The steps ----------

  lemma CreateStep(s: System, k: Kernel, t: nat, n: nat) returns (k': Kernel)
    requires Sound(s, k) && t !in s.procs && 2 <= n <= 512 && n + 1 <= Clear(s.m.frames.bits)
    ensures InRange(s, k.upd) && CanCreate(s, k.upd, t, n, USER_FLAGS)
    ensures var s' := Create(s, k.upd, t, n, USER_FLAGS);
            && StepOk(s, k, s', k', CreateProcess(t, n)) && t in s'.procs && s'.procs[t].pages == n
            && s'.procs.Keys == s.procs.Keys + {t}
            && Clear(s'.m.frames.bits) == Clear(s.m.frames.bits) - (n + 1)
  {
    hide FrameOf, Bit, Partition, Owned, ProcOk, Tree, Create, CanCreate, SlotWord, Bystander, ThreadsKept, Settled;
    hide Closed, WindowReady;
    CallersFlags();
    k' := CreateSound(s, k, t, n, USER_FLAGS);
    var s' := Create(s, k.upd, t, n, USER_FLAGS);
    SettledSame(s, k);
    SettledSame(s', k');
    TableApart(s', k', t);
    var w := Table(s'.procs[t]);
    NewTable(s, k, s', k', t);
    Bystanders(s, k, s', k', {t}, w);
  }

  lemma NewTable(s: System, k: Kernel, s': System, k': Kernel, t: nat)
    requires Sound(s, k) && Sound(s', k') && WellSized(s.m) && TablesGrow(s.m, k, k') && t in s'.procs
    requires RowsKept(s.m, s'.m, {Table(s'.procs[t])}) && Table(s'.procs[t]) != k.upd
    requires Table(s'.procs[t]) in k'.tables && k'.tables[Table(s'.procs[t])] == Node(1, k.upd, USER_SLOT)
    ensures WroteOnly(s.m, s'.m, k.upd, Table(s'.procs[t]))
    ensures Table(s'.procs[t]) in k.tables ==> k.tables[Table(s'.procs[t])] == Node(1, k.upd, USER_SLOT)
  {
    hide FrameOf, Bit, Invariant;
  }

  lemma ThreadStep(s: System, k: Kernel, t: nat, a: bool)
    requires Sound(s, k) && t in s.procs
    requires s.procs[t].pages + ThreadPages(a) <= 512 && ThreadPages(a) <= Clear(s.m.frames.bits)
    ensures InRange(s, k.upd) && CanGrow(Install(s, k.upd, s.procs[t].pd), t, ThreadPages(a), USER_FLAGS)
    ensures var s' := Grow(Install(s, k.upd, s.procs[t].pd), t, ThreadPages(a), USER_FLAGS);
            && StepOk(s, k, s', k, CreateThread(t, a)) && s'.procs.Keys == s.procs.Keys
            && s'.procs[t] == Process(s.procs[t].pd, s.procs[t].pages + ThreadPages(a))
            && Clear(s'.m.frames.bits) == Clear(s.m.frames.bits) - ThreadPages(a)
  {
    hide FrameOf, Bit, Sound, Grow, CanGrow, Bystander, SlotWord, ThreadsKept, Closed;
    TableApart(s, k, t);
    GrowSound(s, k, t, ThreadPages(a));
    var s' := Grow(Install(s, k.upd, s.procs[t].pd), t, ThreadPages(a), USER_FLAGS);
    Bystanders(s, k, s', k, {t}, Table(s.procs[t]));
  }

  lemma GrowSound(s: System, k: Kernel, t: nat, n: nat)
    requires Sound(s, k) && t in s.procs && s.procs[t].pages + n <= 512 && n <= Clear(s.m.frames.bits)
    ensures InRange(s, k.upd) && CanGrow(Install(s, k.upd, s.procs[t].pd), t, n, USER_FLAGS)
    ensures var s' := Grow(Install(s, k.upd, s.procs[t].pd), t, n, USER_FLAGS);
            && Sound(s', k) && WellSized(s'.m) && WroteOnly(s.m, s'.m, k.upd, Table(s.procs[t]))
            && InRange(s', k.upd) && Slot(s'.m, k.upd) == s.procs[t].pd && PagesKept(s.m, s'.m, s.procs[t])
            && s'.procs.Keys == s.procs.Keys && (forall u | u in s.procs && u != t :: s'.procs[u] == s.procs[u])
            && s'.procs[t] == Process(s.procs[t].pd, s.procs[t].pages + n)
            && Clear(s'.m.frames.bits) == Clear(s.m.frames.bits) - n
  {
    hide FrameOf, Bit, Partition, Owned, Tree, Grow, CanGrow, ProcOk, SlotWord, Settled, WindowReady;
    CallersFlags();
    TableApart(s, k, t);
    SettledSame(s, k);
    InstallKeeps(s, k, s.procs[t].pd);
    var s0 := Install(s, k.upd, s.procs[t].pd);
    GrowKeeps(s0, k, t, n, USER_FLAGS);
    InvariantIsSound(Grow(s0, t, n, USER_FLAGS), k);
  }

  lemma KernelStep(s: System, k: Kernel, i: nat, t: nat) returns (k': Kernel)
    requires Sound(s, k) && i + 2 <= 512 && 3 <= Clear(s.m.frames.bits)
    ensures InRange(s, k.upd) && CanAddThread(s.m, k.upd, i) && InRange(s.(m := AddThread(s.m, k.upd, i)), k.upd)
    ensures var s' := s.(m := AddThread(s.m, k.upd, i));
            && StepOk(s, k, s', k', KernelThread(t)) && ThreadOk(s'.m, k', KThread(Slot(s'.m, k.upd), i))
            && ThreadFrames(s'.m, KThread(Slot(s'.m, k.upd), i)) == k'.base - k.base
            && Clear(s'.m.frames.bits) == Clear(s.m.frames.bits) - 3
  {
    hide FrameOf, Bit, Partition, Owned, Tree, AddThread, CanAddThread, Bystander, ProcOk, SlotWord, ThreadsKept;
    hide Settled, Closed, ThreadOk, ThreadFrames;
    SettledSame(s, k);
    var pt;
    k', pt := AddThreadSound(s, k, i);
    var s' := s.(m := AddThread(s.m, k.upd, i));
    SettledSame(s', k');
    Bystanders(s, k, s', k', {}, pt);
  }

  lemma DispatchStep(s: System, k: Kernel, e: nat, t: nat)
    requires Sound(s, k)
    ensures InRange(s, k.upd) && StepOk(s, k, Install(s, k.upd, e), k, Dispatch(t))
  {
    hide FrameOf, Bit, Partition, Owned, Tree, Bystander, ProcOk, SlotWord, ThreadsKept, Closed;
    var s' := Install(s, k.upd, e);
    SettledSame(s, k);
    SetSlotTwice(s.m, k.upd, e, 0);
    Bystanders(s, k, s', k, {}, NoTable(s, k));
  }

  /** A number that is no frame. */
  ghost function NoTable(s: System, k: Kernel): (w: nat)
    requires Sound(s, k)
    ensures w !in k.tables && w !in k.base && w != k.upd && forall u | u in s.procs :: Table(s.procs[u]) != w
  {
    BeyondTables(s, k);
    |s.m.mem|
  }

  lemma BeyondTables(s: System, k: Kernel)
    requires Sound(s, k)
    ensures |s.m.mem| !in k.tables && |s.m.mem| !in k.base && forall u | u in s.procs :: Table(s.procs[u]) != |s.m.mem|
  {
    hide FrameOf, Bit, ProcOk, SlotWord;
    SettledSame(s, k);
  }

  lemma ReapStep(s: System, k: Kernel, t: nat) returns (k': Kernel)
    requires Sound(s, k) && t in s.procs && t < 128
    ensures CanFree(s.m, s.procs[t]) && StepOk(s, k, Reap(s, t), k', FreeTask(t))
  {
    hide FrameOf, Bit, Partition, Owned, Tree, CanFree, FreeFrames, Bystander, ProcOk, SlotWord, ThreadsKept;
    hide Settled, Closed;
    ReapKeeps(s, k, t);
    k' := k.(tables := k.tables - {Table(s.procs[t])});
    TableApart(s, k, t);
    SettledSame(s, k);
    SettledSame(Reap(s, t), k');
    Bystanders(s, k, Reap(s, t), k', {t}, Table(s.procs[t]));
  }

  /** Which processes there are afterwards, how large they are, and how many frames are free. */
  ghost predicate Effect(w: World, op: Op, w': World)
  {
    var procs, procs' := w.sys.procs, w'.sys.procs;
    var free, free' := Clear(w.sys.m.frames.bits), Clear(w'.sys.m.frames.bits);
    match op
    case CreateProcess(t, n) =>
      && procs'.Keys == procs.Keys + {t} && procs'[t].pages == n && free' == free - (n + 1)
      && w'.threads == w.threads && w'.kernelPages == w.kernelPages
    case CreateThread(t, a) =>
      && procs'.Keys == procs.Keys && t in procs && procs'[t].pages == procs[t].pages + (if a then 3 else 2)
      && free' == free - (if a then 3 else 2) && w'.threads == w.threads && w'.kernelPages == w.kernelPages
    case KernelThread(t) =>
      && procs' == procs && free' == free - 3
      && w'.threads.Keys == w.threads.Keys + {t} && w'.kernelPages == w.kernelPages + 2
    case Dispatch(_) =>
      procs' == procs && free' == free && w'.threads == w.threads && w'.kernelPages == w.kernelPages
    case FreeTask(t) => procs' == procs - {t} && w'.threads == w.threads && w'.kernelPages == w.kernelPages
  }

  /** Every enabled operation is possible, keeps the world in order, leaves every other
    * process a bystander and every kernel thread its memory. */
  lemma StepKeeps(w: World, k: Kernel, op: Op) returns (w': World, k': Kernel)
    requires WorldOk(w, k) && Enabled(w, op)
    ensures InRange(w.sys, k.upd) && Next(w, k.upd, op, w') && WorldOk(w', k') && StepOk(w.sys, k, w'.sys, k', op)
    ensures forall v | Next(w, k.upd, op, v) :: v == w'
    ensures Effect(w, op, w')
    ensures forall t | t in w.threads :: t in w'.threads && w'.threads[t] == w.threads[t]
  {
    hide Sound, Create, CanCreate, Grow, CanGrow, AddThread, CanAddThread, FreeFrames, CanFree, Bystander, SameView;
    hide KernelEntry, ThreadsKept, Closed, ThreadOk, ThreadFrames, ThreadsOk;
    match op
    case CreateProcess(t, n) =>
      k' := CreateStep(w.sys, k, t, n);
      w' := w.(sys := Create(w.sys, k.upd, t, n, USER_FLAGS));
      NotThreads(w, k);
      ThreadsStay(w, k, w', k');
    case CreateThread(t, a) =>
      ThreadStep(w.sys, k, t, a);
      k' := k;
      w' := w.(sys := Grow(Install(w.sys, k.upd, w.sys.procs[t].pd), t, ThreadPages(a), USER_FLAGS));
      NotThreads(w, k);
      ThreadsStay(w, k, w', k');
    case KernelThread(t) =>
      k' := KernelStep(w.sys, k, w.kernelPages, t);
      var m' := AddThread(w.sys.m, k.upd, w.kernelPages);
      w' := World(w.sys.(m := m'), w.kernelPages + 2, w.threads[t := KThread(Slot(m', k.upd), w.kernelPages)]);
      ThreadJoins(w, k, w', k', t);
    case Dispatch(t) =>
      DispatchStep(w.sys, k, EntryOf(w, t), t);
      k' := k;
      w' := w.(sys := Install(w.sys, k.upd, EntryOf(w, t)));
      NotThreads(w, k);
      ThreadsStay(w, k, w', k');
    case FreeTask(t) =>
      SoundRange(w.sys, k);
      k' := ReapStep(w.sys, k, t);
      w' := w.(sys := Reap(w.sys, t));
      NotThreads(w, k);
      ThreadsStay(w, k, w', k');
  }

  lemma NotThreads(w: World, k: Kernel)
    requires ThreadsOk(w, k)
    ensures forall t | t in w.threads :: t !in w.sys.procs
  {
    hide ThreadOk, ThreadFrames;
  }

  /** Kernel threads stay as they are. */
  lemma ThreadsStay(w: World, k: Kernel, w': World, k': Kernel)
    requires ThreadsOk(w, k) && ThreadsKept(w.sys, k, w'.sys, k') && k.base <= k'.base && w'.threads == w.threads
    requires forall t | t in w.threads :: t !in w'.sys.procs
    ensures ThreadsOk(w', k')
  {
    hide FrameOf, Bit, SameView, Bystander;
    forall t | t in w.threads
      ensures ThreadOk(w'.sys.m, k', w.threads[t])
      ensures ThreadFrames(w'.sys.m, w.threads[t]) == ThreadFrames(w.sys.m, w.threads[t])
    {
      ThreadStays(w.sys, k, w'.sys, k', w.threads[t]);
    }
  }

  lemma ThreadStays(s: System, k: Kernel, s': System, k': Kernel, th: KThread)
    requires ThreadOk(s.m, k, th) && ThreadsKept(s, k, s', k') && k.base <= k'.base
    ensures ThreadOk(s'.m, k', th) && ThreadFrames(s'.m, th) == ThreadFrames(s.m, th)
    ensures ThreadFrames(s.m, th) <= k.base
  {
    hide FrameOf, Bit, SameView;
    assert ThreadKept(s, s', k, k', th.pd);
  }

  /** A new one takes frames that were not the kernel's before. */
  lemma ThreadJoins(w: World, k: Kernel, w': World, k': Kernel, t: nat)
    requires ThreadsOk(w, k) && ThreadsKept(w.sys, k, w'.sys, k') && k.base <= k'.base && t !in w.threads
    requires w'.threads.Keys == w.threads.Keys + {t} && w'.sys.procs == w.sys.procs && t !in w.sys.procs
    requires forall u | u in w.threads :: w'.threads[u] == w.threads[u]
    requires ThreadOk(w'.sys.m, k', w'.threads[t]) && ThreadFrames(w'.sys.m, w'.threads[t]) == k'.base - k.base
    ensures ThreadsOk(w', k')
  {
    hide FrameOf, Bit, SameView, ThreadFrames, ThreadOk;
    forall u | u in w.threads
      ensures ThreadOk(w'.sys.m, k', w.threads[u])
      ensures ThreadFrames(w'.sys.m, w.threads[u]) == ThreadFrames(w.sys.m, w.threads[u])
      ensures ThreadFrames(w'.sys.m, w.threads[u]) !! ThreadFrames(w'.sys.m, w'.threads[t])
    {
      ThreadStays(w.sys, k, w'.sys, k', w.threads[u]);
    }
  }

  lemma SoundRange(s: System, k: Kernel)
    requires Sound(s, k)
    ensures InRange(s, k.upd)
  {
  }

  // ---------- The window after dispatching ----------

  /** After `schedule` has installed the entry of task t, the window is exactly that of the
    * process t, open to user code, or that of the kernel thread t, closed to it; everything
    * outside the window translates as before. */
  lemma DispatchShows(w: World, k: Kernel, t: nat, w': World)
    requires WorldOk(w, k) && InRange(w.sys, k.upd) && Next(w, k.upd, Dispatch(t), w')
    ensures t in w.sys.procs ==>
              ShowsProcess(w'.sys.m, w.sys.procs[t])
              && Owned(w'.sys.m, w.sys.procs[t]) == Owned(w.sys.m, w.sys.procs[t])
    ensures t in w.threads ==>
              ShowsThread(w'.sys.m, w.threads[t])
              && ThreadFrames(w'.sys.m, w.threads[t]) == ThreadFrames(w.sys.m, w.threads[t])
    ensures WellSized(w.sys.m) && WellSized(w'.sys.m) && ROOT < |w.sys.m.mem| && ROOT < |w'.sys.m.mem|
    ensures forall v: nat | PageOf(v) / 512 != WINDOW_BLOCK ::
              Translate(w'.sys.m.mem, v) == Translate(w.sys.m.mem, v)
  {
    hide FrameOf, Bit, PageOf, Sound, ThreadOk, ShowsProcess, ShowsThread, Owned, ThreadFrames, Walk, Closed;
    SoundSizes(w.sys, k);
    if t in w.sys.procs {
      InstalledShows(w.sys, k, t);
    } else {
      InstalledShowsThread(w.sys, k, w.threads[t]);
    }
    forall v: nat | PageOf(v) / 512 != WINDOW_BLOCK
      ensures Translate(w'.sys.m.mem, v) == Translate(w.sys.m.mem, v)
    {
      OutsideKept(w.sys, k, EntryOf(w, t), v);
    }
  }

  /** After a thread has been created its process has its old pages and two or three more, and
    * its window is installed, so the entry the thread copies is its process's. */
  lemma ThreadShows(w: World, k: Kernel, t: nat, a: bool, w': World)
    requires WorldOk(w, k) && Enabled(w, CreateThread(t, a)) && InRange(w.sys, k.upd)
    requires Next(w, k.upd, CreateThread(t, a), w')
    ensures t in w'.sys.procs
    ensures w'.sys.procs[t] == Process(w.sys.procs[t].pd, w.sys.procs[t].pages + if a then 3 else 2)
    ensures InRange(w'.sys, k.upd) && Slot(w'.sys.m, k.upd) == w.sys.procs[t].pd
    ensures ShowsProcess(w'.sys.m, w'.sys.procs[t]) && PagesKept(w.sys.m, w'.sys.m, w.sys.procs[t])
  {
    hide FrameOf, Bit, Sound, Grow, CanGrow, ShowsProcess, PagesKept, Closed, ThreadsOk;
    GrowSound(w.sys, k, t, ThreadPages(a));
    InstalledShows(w'.sys, k, t);
    SlotAgain(w'.sys.m, k.upd);
  }

  lemma SlotAgain(m: Machine, upd: nat)
    requires upd < |m.mem| && |m.mem[upd]| == 512
    ensures SetSlot(m, upd, Slot(m, upd)) == m
  {
    assert m.mem[upd][USER_SLOT := Slot(m, upd)] == m.mem[upd];
    assert SetSlot(m, upd, Slot(m, upd)).mem == m.mem;
  }

  lemma SoundSizes(s: System, k: Kernel)
    requires Sound(s, k)
    ensures WellSized(s.m) && ROOT < |s.m.mem| && InRange(s, k.upd)
    ensures forall e: nat :: WellSized(SetSlot(s.m, k.upd, e))
  {
    hide FrameOf, Bit, ProcOk, Partition;
    SettledSame(s, k);
  }

  /** In every state of every run user code reaches nothing outside the window, whatever is
    * installed and whatever has been created, dispatched and reaped. */
  lemma KernelClosed(states: seq<World>, ops: seq<Op>, k: Kernel, v: nat)
    requires IsRun(states, ops, k.upd) && WorldOk(states[0], k) && PageOf(v) / 512 != WINDOW_BLOCK
    ensures var m := states[|ops|].sys.m; WellSized(m) && ROOT < |m.mem| && !UserWalk(m.mem, ROOT, 4, v)
  {
    hide StepAt, Sound, Closed, ThreadsKept, Bystander, PageOf, ThreadsOk;
    var k' := RunKeepsInvariant(states, ops, k);
    ClosedToUsers(states[|ops|].sys, k', v);
  }

  // ---------- Runs ----------

  /** A run: states and the operations between them. */
  ghost predicate IsRun(states: seq<World>, ops: seq<Op>, upd: nat)
  {
    && |states| == |ops| + 1
    && (forall i | 0 <= i < |ops| :: StepAt(states, ops, upd, i))
  }

  ghost predicate StepAt(states: seq<World>, ops: seq<Op>, upd: nat, i: nat)
    requires i < |ops| < |states|
  {
    InRange(states[i].sys, upd) && Enabled(states[i], ops[i]) && Next(states[i], upd, ops[i], states[i + 1])
  }

  /** Kernel threads created along the way. */
  function KernelThreads(ops: seq<Op>): nat
  {
    if ops == [] then 0 else KernelThreads(ops[..|ops| - 1]) + if ops[|ops| - 1].KernelThread? then 1 else 0
  }

  ghost predicate RunOk(w: World, k: Kernel, w': World, k': Kernel, ops: seq<Op>)
  {
    && WorldOk(w', k') && k'.upd == k.upd && |w'.sys.m.mem| == |w.sys.m.mem|
    && k.base <= k'.base && |k'.base| == |k.base| + 3 * KernelThreads(ops)
    && ThreadsKept(w.sys, k, w'.sys, k')
    && (forall t | t in w.threads :: t in w'.threads && w'.threads[t] == w.threads[t])
    && (forall u | u in w.sys.procs && Untouched(ops, u) :: Bystander(w.sys, w'.sys, k.upd, u))
  }

  ghost predicate Untouched(ops: seq<Op>, u: nat)
  {
    forall i | 0 <= i < |ops| :: u !in Touched(ops[i])
  }

  /** Over any run the world stays in order, every kernel thread keeps its memory, and so does
    * every process no operation is about. */
  lemma {:induction false} RunKeepsInvariant(states: seq<World>, ops: seq<Op>, k: Kernel) returns (k': Kernel)
    requires IsRun(states, ops, k.upd) && WorldOk(states[0], k)
    ensures RunOk(states[0], k, states[|ops|], k', ops)
    decreases |ops|
  {
    hide WorldOk, Enabled, Next, InRange, ThreadsKept, Bystander;
    if ops == [] {
      k' := k;
      Still(states[0], k);
    } else {
      var n := |ops| - 1;
      assert forall i | 0 <= i < n :: StepAt(states, ops, k.upd, i) ==> StepAt(states[..|ops|], ops[..n], k.upd, i);
      var k1 := RunKeepsInvariant(states[..|ops|], ops[..n], k);
      assert StepAt(states, ops, k.upd, n);
      k' := RunSnoc(states[0], k, states[n], k1, ops, states[|ops|]);
    }
  }

  lemma RunSnoc(w: World, k: Kernel, w1: World, k1: Kernel, ops: seq<Op>, w2: World) returns (k': Kernel)
    requires |ops| > 0 && RunOk(w, k, w1, k1, ops[..|ops| - 1])
    requires InRange(w1.sys, k.upd) && Enabled(w1, ops[|ops| - 1]) && Next(w1, k.upd, ops[|ops| - 1], w2)
    ensures RunOk(w, k, w2, k', ops)
  {
    hide WorldOk, Sound, Enabled, Next, InRange, ThreadsKept, Bystander, Untouched, Touched;
    var n := |ops| - 1;
    var w2';
    w2', k' := StepKeeps(w1, k1, ops[n]);
    ThreadsKeptTransitive(w.sys, k, w1.sys, k1, w2.sys, k');
    forall u | u in w.sys.procs && Untouched(ops, u)
      ensures Bystander(w.sys, w2.sys, k.upd, u)
    {
      UntouchedFront(ops, u);
      BystanderStays(w.sys, w1.sys, k.upd, u);
      BystanderTransitive(w.sys, w1.sys, w2.sys, k.upd, u);
    }
  }

  lemma UntouchedFront(ops: seq<Op>, u: nat)
    requires |ops| > 0 && Untouched(ops, u)
    ensures Untouched(ops[..|ops| - 1], u) && u !in Touched(ops[|ops| - 1])
  {
  }

  lemma Still(w: World, k: Kernel)
    requires WorldOk(w, k)
    ensures ThreadsKept(w.sys, k, w.sys, k) && forall u | u in w.sys.procs :: Bystander(w.sys, w.sys, k.upd, u)
  {
    hide FrameOf, Bit, Partition, Owned, View, Settled, ProcOk, Closed, ThreadsOk;
    SettledSame(w.sys, k);
    forall pd: nat | KernelEntry(k, pd)
      ensures ThreadKept(w.sys, w.sys, k, k, pd)
    {
      EntryTable(w.sys, k, pd);
    }
  }

  lemma BystanderStays(a: System, b: System, upd: nat, u: nat)
    requires Bystander(a, b, upd, u)
    ensures u in b.procs
  {
  }

  lemma BystanderTransitive(a: System, b: System, c: System, upd: nat, u: nat)
    requires Bystander(a, b, upd, u) && Bystander(b, c, upd, u)
    ensures Bystander(a, c, upd, u)
  {
    hide Owned, View;
  }

  lemma ThreadsKeptTransitive(a: System, ka: Kernel, b: System, kb: Kernel, c: System, kc: Kernel)
    requires ThreadsKept(a, ka, b, kb) && ThreadsKept(b, kb, c, kc) && kb.upd == ka.upd
    ensures ThreadsKept(a, ka, c, kc)
  {
    hide View, KernelEntry;
    forall pd: nat | KernelEntry(ka, pd)
      ensures ThreadKept(a, c, ka, kc, pd)
    {
      assert ThreadKept(a, b, ka, kb, pd);
      assert ThreadKept(b, c, kb, kc, pd);
    }
  }

  // ---------- Frame conservation ----------

  /** After any run that ends with the processes it began with, whatever was created, grown,
    * dispatched and reaped in between, the frame map is what it was, but for the three frames
    * of every kernel thread created on the way. */
  lemma RunsConserveFrames(states: seq<World>, ops: seq<Op>, k: Kernel) returns (extra: set<nat>)
    requires IsRun(states, ops, k.upd) && WorldOk(states[0], k)
    requires states[|ops|].sys.procs.Keys == states[0].sys.procs.Keys
    requires forall u | u in states[0].sys.procs :: Untouched(ops, u)
    ensures var bits, bits' := states[0].sys.m.frames.bits, states[|ops|].sys.m.frames.bits;
            && |extra| == 3 * KernelThreads(ops) && |bits'| == |bits|
            && (forall x | x in extra :: x < |bits| && !bits[x])
            && (forall x | 0 <= x < |bits| :: bits'[x] == (bits[x] || x in extra))
            && (KernelThreads(ops) == 0 ==> bits' == bits)
  {
    hide StepAt, Sound, Partition, Bystander, ThreadsKept, Shares;
    var k' := RunKeepsInvariant(states, ops, k);
    var s, s' := states[0].sys, states[|ops|].sys;
    SoundPartition(s, k);
    SoundPartition(s', k');
    SameShares(s, s', k.upd);
    extra := k'.base - k.base;
    assert k'.base == k.base + extra;
    SamePartition(s.m.frames.bits, s'.m.frames.bits, k.base, extra, Shares(s));
    assert KernelThreads(ops) == 0 ==> extra == {};
  }

  lemma SoundPartition(s: System, k: Kernel)
    requires Sound(s, k)
    ensures Partition(s.m.frames.bits, k.base, Shares(s)) && |s.m.frames.bits| == |s.m.mem|
  {
    hide FrameOf, Bit, Tree, SlotWord, Owned, ProcOk, Partition;
    SettledSame(s, k);
    assert Shares(Settled(s, k.upd)) == Shares(s);
  }

  lemma SameShares(s: System, s': System, upd: nat)
    requires s'.procs.Keys == s.procs.Keys && forall u | u in s.procs :: Bystander(s, s', upd, u)
    ensures Shares(s') == Shares(s)
  {
    hide Owned, View;
  }

  lemma SamePartition(a: seq<bool>, b: seq<bool>, base: set<nat>, extra: set<nat>, own: map<nat, set<nat>>)
    requires Partition(a, base, own) && Partition(b, base + extra, own) && |a| == |b| && base !! extra
    ensures forall x | x in extra :: x < |a| && !a[x]
    ensures forall x | 0 <= x < |a| :: b[x] == (a[x] || x in extra)
    ensures extra == {} ==> b == a
  {
  }

  /** From the first state on: whenever no process is left, the frames in use are those of the
    * start and three for every kernel thread, so between two such moments without a new
    * kernel thread nothing was lost or gained. */
  lemma IdleAgain(states: seq<World>, ops: seq<Op>, k: Kernel, i: nat, j: nat)
    requires IsRun(states, ops, k.upd) && WorldOk(states[0], k) && i <= j <= |ops|
    requires states[i].sys.procs == map[] && states[j].sys.procs == map[]
    requires forall l | i <= l < j :: !ops[l].KernelThread?
    ensures states[j].sys.m.frames.bits == states[i].sys.m.frames.bits
  {
    hide StepAt, WorldOk, Partition, RunOk;
    var front, part := ops[0..i], ops[i..j];
    Middle(states, ops, k.upd, 0, i);
    Middle(states, ops, k.upd, i, j);
    var k1 := RunKeepsInvariant(states[0..i + 1], front, k);
    RunOkEnd(states[0], k, states[i], k1, front);
    NoKernelThreads(part);
    var extra := RunsConserveFrames(states[i..j + 1], part, k1);
  }

  lemma RunOkEnd(w: World, k: Kernel, w': World, k': Kernel, ops: seq<Op>)
    requires RunOk(w, k, w', k', ops)
    ensures WorldOk(w', k') && k'.upd == k.upd
  {
    hide WorldOk, Bystander, ThreadsKept;
  }

  lemma Middle(states: seq<World>, ops: seq<Op>, upd: nat, i: nat, j: nat)
    requires IsRun(states, ops, upd) && i <= j <= |ops|
    ensures IsRun(states[i..j + 1], ops[i..j], upd)
  {
    hide InRange, Enabled, Next;
    var states1, ops1 := states[i..j + 1], ops[i..j];
    forall l | 0 <= l < |ops1|
      ensures StepAt(states1, ops1, upd, l)
    {
      assert StepAt(states, ops, upd, i + l);
    }
  }

  lemma {:induction false} NoKernelThreads(ops: seq<Op>)
    requires forall l | 0 <= l < |ops| :: !ops[l].KernelThread?
    ensures KernelThreads(ops) == 0
    decreases |ops|
  {
    if ops != [] {
      NoKernelThreads(ops[..|ops| - 1]);
    }
  }

  // ---------- The life of one process ----------

  lemma Snoc(states: seq<World>, ops: seq<Op>, upd: nat, op: Op, w: World)
    requires IsRun(states, ops, upd) && InRange(states[|ops|].sys, upd)
    requires Enabled(states[|ops|], op) && Next(states[|ops|], upd, op, w)
    ensures IsRun(states + [w], ops + [op], upd)
  {
    hide InRange, Enabled, Next;
    var states1, ops1 := states + [w], ops + [op];
    forall l | 0 <= l < |ops1|
      ensures StepAt(states1, ops1, upd, l)
    {
      if l < |ops| {
        assert StepAt(states, ops, upd, l);
      }
    }
  }

  function ThreadOps(t: nat, threads: seq<bool>): seq<Op>
  {
    seq(|threads|, i requires 0 <= i < |threads| => CreateThread(t, threads[i]))
  }

  function PagesOf(threads: seq<bool>): nat
  {
    if threads == [] then 0 else PagesOf(threads[..|threads| - 1]) + ThreadPages(threads[|threads| - 1])
  }

  /** A process that is created, dispatched and starts threads. */
  lemma {:induction false} LiveRun(w: World, k: Kernel, t: nat, n: nat, threads: seq<bool>)
    returns (states: seq<World>, ops: seq<Op>, k': Kernel)
    requires WorldOk(w, k) && t !in w.sys.procs && t !in w.threads && t < 255
    requires 2 <= n && n + PagesOf(threads) <= 512 && n + 1 + PagesOf(threads) <= Clear(w.sys.m.frames.bits)
    ensures ops == [CreateProcess(t, n), Dispatch(t)] + ThreadOps(t, threads)
    ensures IsRun(states, ops, k.upd) && states[0] == w
    ensures WorldOk(states[|ops|], k') && k'.upd == k.upd
    ensures states[|ops|].sys.procs.Keys == w.sys.procs.Keys + {t}
    ensures states[|ops|].sys.procs[t].pages == n + PagesOf(threads)
    ensures Clear(states[|ops|].sys.m.frames.bits) == Clear(w.sys.m.frames.bits) - (n + 1 + PagesOf(threads))
    decreases |threads|
  {
    hide WorldOk, Next, StepAt, InRange, StepOk;
    if threads == [] {
      var w1, k1 := StepKeeps(w, k, CreateProcess(t, n));
      StepUpd(w, k, w1, k1, CreateProcess(t, n));
      var w2;
      w2, k' := StepKeeps(w1, k1, Dispatch(t));
      StepUpd(w1, k1, w2, k', Dispatch(t));
      Snoc([w], [], k.upd, CreateProcess(t, n), w1);
      Snoc([w] + [w1], [] + [CreateProcess(t, n)], k.upd, Dispatch(t), w2);
      states, ops := [w] + [w1] + [w2], [] + [CreateProcess(t, n)] + [Dispatch(t)];
    } else {
      var last := |threads| - 1;
      var k1;
      states, ops, k1 := LiveRun(w, k, t, n, threads[..last]);
      var op := CreateThread(t, threads[last]);
      var w', w1 := states[|ops|], w;
      w1, k' := StepKeeps(w', k1, op);
      StepUpd(w', k1, w1, k', op);
      Snoc(states, ops, k.upd, op, w1);
      assert ThreadOps(t, threads) == ThreadOps(t, threads[..last]) + [op];
      states, ops := states + [w1], ops + [op];
    }
  }

  lemma StepUpd(w: World, k: Kernel, w': World, k': Kernel, op: Op)
    requires StepOk(w.sys, k, w'.sys, k', op)
    ensures k'.upd == k.upd
  {
  }

  /** A whole life: a process of any size that starts any number of threads, dispatched before
    * it is reaped, gives back every frame it took, with no other process around if need be. */
  lemma ProcessLife(w: World, k: Kernel, t: nat, n: nat, threads: seq<bool>)
    returns (states: seq<World>, ops: seq<Op>)
    requires WorldOk(w, k) && t !in w.sys.procs && t !in w.threads && t < 128
    requires 2 <= n && n + PagesOf(threads) <= 512 && n + 1 + PagesOf(threads) <= Clear(w.sys.m.frames.bits)
    ensures ops == [CreateProcess(t, n), Dispatch(t)] + ThreadOps(t, threads) + [FreeTask(t)]
    ensures IsRun(states, ops, k.upd) && states[0] == w
    ensures states[|ops|].sys.procs.Keys == w.sys.procs.Keys
    ensures states[|ops|].sys.m.frames.bits == w.sys.m.frames.bits
  {
    hide WorldOk, Next, StepAt, InRange, StepOk;
    var k1;
    states, ops, k1 := LiveRun(w, k, t, n, threads);
    var w', k2 := StepKeeps(states[|ops|], k1, FreeTask(t));
    Snoc(states, ops, k.upd, FreeTask(t), w');
    states, ops := states + [w'], ops + [FreeTask(t)];
    NoKernelThreads(ops);
    forall u | u in w.sys.procs
      ensures Untouched(ops, u)
    {
    }
    var extra := RunsConserveFrames(states, ops, k);
  }

  /** The accounting does break: a process with the number 128 can be created in every sound
    * world that has three free frames, and reaping it loses what it owned. */
  lemma LeakIsReachable(w: World, k: Kernel) returns (w': World, k': Kernel)
    requires WorldOk(w, k) && 128 !in w.sys.procs && 128 !in w.threads && 3 <= Clear(w.sys.m.frames.bits)
    ensures InRange(w.sys, k.upd) && Enabled(w, CreateProcess(128, 2)) && Next(w, k.upd, CreateProcess(128, 2), w')
    ensures WorldOk(w', k') && 128 in w'.sys.procs && CanFree(w'.sys.m, w'.sys.procs[128])
    ensures var s' := Reap(w'.sys, 128);
            !Partition(s'.m.frames.bits, k'.base, Shares(s')) && s'.m.frames == w'.sys.m.frames
  {
    hide Sound, Next, InRange, Partition, CanFree, Shares;
    w', k' := StepKeeps(w, k, CreateProcess(128, 2));
    ReapAccountsIffTidFits(w'.sys, k', 128);
  }
}
