/** The scheduler and the memory side together: every step of the task table with what it does
  * to page tables and frames (src/kernel/task/task.cpp). */
module KernelRuns {
  import opened Options
  import opened Frames
  import opened PageTables
  import opened UserSpace
  import opened Lifecycle
  import R = ProcessRuns
  import S = Scheduler
  import T = Threads

  datatype Joint = Joint(sched: S.Sched, world: R.World)

  datatype Step =
    | Spawn(estimate: nat, pages: nat)                    // createTask(args, 3, ppid)
    | SpawnThread(pid: nat, estimate: nat, withArgs: bool)  // createTask(func, 3, args, PCB)
    | SpawnKernel(func: S.Entry, estimate: nat)           // createTask(func, 0, NULL, kernelPHdr)
    | Load
    | TickOn(cpu: nat)
    | YieldOn(cpu: nat)
    | EndThread(tid: nat)
    | EndOn(cpu: nat)
    | Reap

  /** The step of the task table. */
  function SchedStep(a: Step): S.Step
  {
    match a
    case Spawn(e, _) => S.NewProcess(e)
    case SpawnThread(p, e, _) => S.NewThread(S.UserCode, p, e)
    case SpawnKernel(f, e) => S.NewThread(f, S.KERNEL_PID, e)
    case Load => S.Load
    case TickOn(c) => S.TickOn(c)
    case YieldOn(c) => S.YieldOn(c)
    case EndThread(t) => S.EndThread(t)
    case EndOn(c) => S.EndOn(c)
    case Reap => S.Reap
  }

  /** Whose directory entry task t runs on: its process's, or its own if it is the kernel's. */
  function Owner(s: S.Sched, t: nat): nat
    requires S.Live(s, t)
  {
    var p := s.tasks[t].value.pid;
    if p >= 0 then p else t
  }

  /** What the step does to memory: `schedule` installs the entry of a task it starts, and
    * `freeTask` releases the frames of a main thread. */
  function MemoryOp(j: Joint, a: Step): Option<R.Op>
    requires S.Sized(j.sched)
  {
    var s := j.sched;
    match a
    case Spawn(_, n) => Some(R.CreateProcess(s.count, n))
    case SpawnThread(p, _, args) => Some(R.CreateThread(p, args))
    case SpawnKernel(_, _) => Some(R.KernelThread(s.count))
    case TickOn(c) =>
      if S.TickOk(s, c) && !S.KeepsRunning(s, c) && S.Tick(s, c).running[c].Some?
         && S.Live(s, S.Tick(s, c).running[c].value)
      then Some(R.Dispatch(Owner(s, S.Tick(s, c).running[c].value)))
      else None
    case Reap => if s.reap != [] && T.IsMain(s, s.reap[0]) then Some(R.FreeTask(s.reap[0])) else None
    case _ => None
  }

  /** When a step may happen: the table has room at `tasksCount`, frames and window pages
    * suffice, and callers behave as `Lawful` says. */
  ghost predicate Enabled(j: Joint, a: Step)
    requires S.Sized(j.sched)
  {
    && S.Enabled(j.sched, SchedStep(a)) && T.Lawful(j.sched, SchedStep(a))
    && (a.Spawn? || a.SpawnThread? || a.SpawnKernel? ==> j.sched.count < S.MAX_TASKS_COUNT)
    && (a.Spawn? || a.SpawnThread? || a.SpawnKernel? ==> MemoryOp(j, a).Some? && Fits(j.world, MemoryOp(j, a).value))
  }

  /** Enough frames, and room in the window. */
  ghost predicate Fits(w: R.World, op: R.Op)
  {
    var free := Clear(w.sys.m.frames.bits);
    match op
    case CreateProcess(_, n) => 2 <= n <= 512 && n + 1 <= free
    case CreateThread(t, a) =>
      t in w.sys.procs ==> w.sys.procs[t].pages + R.ThreadPages(a) <= 512 && R.ThreadPages(a) <= free
    case KernelThread(_) => w.kernelPages + 2 <= 512 && 3 <= free
    case _ => true
  }

  ghost predicate Next(j: Joint, upd: nat, a: Step, j': Joint)
    requires S.Sized(j.sched)
  {
    && S.Next(j.sched, SchedStep(a), j'.sched) && R.InRange(j.world.sys, upd)
    && match MemoryOp(j, a)
       case None => j'.world == j.world
       case Some(op) => R.Enabled(j.world, op) && R.Next(j.world, upd, op, j'.world)
  }

  /** Processes in memory are the main threads in the table, and kernel threads likewise. */
  ghost predicate Linked(j: Joint)
  {
    && (forall t: nat :: t in j.world.sys.procs <==> T.IsMain(j.sched, t))
    && (forall t: nat :: t in j.world.threads <==> IsKernel(j.sched, t))
    && (forall t: nat | T.IsMain(j.sched, t) :: t < 128)
  }

  predicate IsKernel(s: S.Sched, t: nat)
  {
    S.Live(s, t) && s.tasks[t].value.pid == S.KERNEL_PID
  }

  ghost predicate Invariant(j: Joint, k: Kernel)
  {
    S.Invariant(j.sched) && T.Orderly(j.sched) && R.WorldOk(j.world, k) && Linked(j)
  }

  /** Every live task has a table to run on: that of its process, which is there and owns its
    * frames, or its own. */
  ghost predicate HasTable(j: Joint, t: nat)
  {
    S.Live(j.sched, t) ==> Owner(j.sched, t) in j.world.sys.procs || Owner(j.sched, t) in j.world.threads
  }

  lemma TablesThere(j: Joint, k: Kernel)
    requires Invariant(j, k)
    ensures forall t: nat :: HasTable(j, t)
  {
    hide R.WorldOk, S.Invariant;
    forall t: nat
      ensures HasTable(j, t)
    {
      if S.Live(j.sched, t) {
        assert T.PidOk(j.sched, t);
        assert T.IsMain(j.sched, Owner(j.sched, t)) || IsKernel(j.sched, t);
      }
    }
  }

  // ---------- Every step keeps the two sides together ----------

  /** The same main threads and the same kernel threads. */
  ghost predicate SameRoles(s: S.Sched, s': S.Sched)
  {
    forall t: nat :: (T.IsMain(s', t) <==> T.IsMain(s, t)) && (IsKernel(s', t) <==> IsKernel(s, t))
  }

  lemma StandingRoles(s: S.Sched, s': S.Sched)
    requires T.SameStanding(s, s')
    ensures SameRoles(s, s')
  {
    forall t: nat
      ensures (T.IsMain(s', t) <==> T.IsMain(s, t)) && (IsKernel(s', t) <==> IsKernel(s, t))
    {
      assert t < |s.tasks| ==> T.StandingAt(s, s', t);
    }
  }

  /** Steps without a memory operation, and dispatching, create and free nothing. */
  lemma MovesKeepRoles(j: Joint, a: Step, s': S.Sched)
    requires S.Invariant(j.sched) && T.Orderly(j.sched) && S.Enabled(j.sched, SchedStep(a))
    requires S.Next(j.sched, SchedStep(a), s')
    requires a.Load? || a.TickOn? || a.YieldOn? || a.EndThread? || a.EndOn? || (a.Reap? && MemoryOp(j, a).None?)
    ensures SameRoles(j.sched, s')
  {
    hide S.Places, S.LiveCount, S.Tick;
    var s := j.sched;
    S.QueuesLive(s);
    match a {
      case TickOn(c) =>
        T.TickStanding(s, c);
        StandingRoles(s, s');
      case YieldOn(c) =>
        T.YieldStanding(s, c);
        StandingRoles(s, s');
      case Reap =>
        if s.reap != [] {
          assert S.HasEnded(s.tasks, s.reap[0]);
        }
      case _ =>
    }
  }

  lemma EnterRoles(s: S.Sched, s': S.Sched, x: S.Task)
    requires !S.Live(s, s.count) && s.count < |s.tasks| && s'.tasks == s.tasks[s.count := Some(x)]
    ensures forall t: nat :: T.IsMain(s', t) <==> T.IsMain(s, t) || (t == s.count && x.pid == t)
    ensures forall t: nat :: IsKernel(s', t) <==> IsKernel(s, t) || (t == s.count && x.pid == S.KERNEL_PID)
  {
  }

  lemma ReapedRoles(s: S.Sched)
    requires S.Invariant(s) && s.reap != [] && T.IsMain(s, s.reap[0])
    ensures forall i | 0 <= i < |s.reap| :: s.reap[i] < |s.tasks|
    ensures forall t: nat :: T.IsMain(S.ReapOne(s), t) <==> T.IsMain(s, t) && t != s.reap[0]
    ensures forall t: nat :: IsKernel(S.ReapOne(s), t) <==> IsKernel(s, t)
  {
    hide S.Places, S.LiveCount;
    S.QueuesLive(s);
  }

  /** The memory operation of an enabled step can be carried out. */
  lemma MemoryReady(j: Joint, k: Kernel, a: Step)
    requires Invariant(j, k) && Enabled(j, a) && MemoryOp(j, a).Some?
    ensures R.Enabled(j.world, MemoryOp(j, a).value)
  {
    hide R.WorldOk, S.Places, S.LiveCount, S.PopLive;
    TablesThere(j, k);
    var s := j.sched;
    match a {
      case SpawnThread(p, _, _) => assert T.IsMain(s, p);
      case TickOn(c) => assert HasTable(j, S.Tick(s, c).running[c].value);
      case Spawn(_, _) => assert !T.IsMain(s, s.count) && !IsKernel(s, s.count);
      case SpawnKernel(_, _) => assert !T.IsMain(s, s.count) && !IsKernel(s, s.count);
      case _ =>
    }
  }

  ghost predicate Carried(j: Joint, a: Step, j': Joint)
    requires S.Sized(j.sched)
  {
    match MemoryOp(j, a)
    case None => j'.world == j.world
    case Some(op) => R.Effect(j.world, op, j'.world)
  }

  lemma LinkedAfterSpawn(j: Joint, a: Step, j': Joint)
    requires S.Sized(j.sched) && Linked(j) && Enabled(j, a) && (a.Spawn? || a.SpawnThread? || a.SpawnKernel?)
    requires S.Next(j.sched, SchedStep(a), j'.sched) && Carried(j, a, j')
    ensures Linked(j')
  {
    hide Fits;
    var s, s' := j.sched, j'.sched;
    match a {
      case Spawn(e, n) => EnterRoles(s, s', S.NewTask(Int8(s.count), e, false));
      case SpawnThread(p, e, _) => EnterRoles(s, s', S.NewTask(p, e, false));
      case SpawnKernel(f, e) => EnterRoles(s, s', S.NewTask(S.KERNEL_PID, e, f != S.UserCode));
    }
  }

  lemma LinkedAfter(j: Joint, a: Step, j': Joint)
    requires S.Invariant(j.sched) && T.Orderly(j.sched) && Linked(j) && Enabled(j, a)
    requires S.Next(j.sched, SchedStep(a), j'.sched) && Carried(j, a, j')
    ensures Linked(j')
  {
    hide S.Places, S.LiveCount, S.Tick, S.HeadersOk, T.Orderly, Fits, T.Lawful;
    if a.Spawn? || a.SpawnThread? || a.SpawnKernel? {
      LinkedAfterSpawn(j, a, j');
    } else if a.Reap? && MemoryOp(j, a).Some? {
      ReapedRoles(j.sched);
    } else {
      MovesKeepRoles(j, a, j'.sched);
    }
  }

  /** Every enabled step is possible on both sides and keeps both in order and together. */
  lemma StepKeeps(j: Joint, k: Kernel, a: Step) returns (j': Joint, k': Kernel)
    requires Invariant(j, k) && Enabled(j, a)
    ensures Next(j, k.upd, a, j') && Invariant(j', k') && k'.upd == k.upd
    ensures k.base <= k'.base && |k'.base| == |k.base| + (if a.SpawnKernel? then 3 else 0)
    ensures |j'.world.sys.m.mem| == |j.world.sys.m.mem| && Carried(j, a, j')
    ensures forall i | Next(j, k.upd, a, i) :: i == j'
  {
    hide R.WorldOk, R.Next, R.StepOk, S.Places, S.LiveCount, S.HeadersOk, S.Next, S.Tick, T.Orderly, T.Lawful;
    hide Linked, R.Effect, R.Enabled, S.Enabled;
    var s' := S.StepKeeps(j.sched, SchedStep(a));
    T.StepOrderly(j.sched, SchedStep(a), s');
    var w', k1 := j.world, k;
    if MemoryOp(j, a).Some? {
      MemoryReady(j, k, a);
      w', k1 := R.StepKeeps(j.world, k, MemoryOp(j, a).value);
      BaseOf(j.world.sys, k, w'.sys, k1, MemoryOp(j, a).value);
    } else {
      WorldRange(j.world, k);
    }
    j', k' := Joint(s', w'), k1;
    LinkedAfter(j, a, j');
    OneNext(j.sched, SchedStep(a), s');
  }

  lemma BaseOf(s: System, k: Kernel, s': System, k': Kernel, op: R.Op)
    requires R.StepOk(s, k, s', k', op)
    ensures k'.upd == k.upd && k.base <= k'.base && |k'.base| == |k.base| + (if op.KernelThread? then 3 else 0)
    ensures |s'.m.mem| == |s.m.mem|
  {
  }

  lemma WorldRange(w: R.World, k: Kernel)
    requires R.WorldOk(w, k)
    ensures R.InRange(w.sys, k.upd)
  {
  }

  lemma OneNext(s: S.Sched, a: S.Step, s': S.Sched)
    requires S.Sized(s) && S.Next(s, a, s')
    ensures forall i | S.Next(s, a, i) :: i == s'
  {
    hide S.Tick, S.LoadOne, S.ReapOne, S.CreateProcess, S.CreateThread;
  }

  // ---------- The window of the task that runs ----------

  /** The window in memory is that of task u: its process's pages, open to user code, or its
    * own two pages if it is a kernel thread. */
  ghost predicate RunsOnOwnWindow(j: Joint, u: nat, m: Machine)
  {
    && S.Live(j.sched, u)
    && var p := j.sched.tasks[u].value.pid;
       if p >= 0 then
         && p in j.world.sys.procs && ShowsProcess(m, j.world.sys.procs[p])
         && Owned(m, j.world.sys.procs[p]) == Owned(j.world.sys.m, j.world.sys.procs[p])
       else
         && u in j.world.threads && ShowsThread(m, j.world.threads[u])
         && ThreadFrames(m, j.world.threads[u]) == ThreadFrames(j.world.sys.m, j.world.threads[u])
  }

  /** A tick that gives processor c to a task, anew or because its slice was used up, leaves
    * memory with the window of that task. */
  lemma TickShowsWindow(j: Joint, k: Kernel, c: nat, u: nat, j': Joint)
    requires Invariant(j, k) && Enabled(j, TickOn(c)) && Next(j, k.upd, TickOn(c), j')
    requires c < |j'.sched.running| && j'.sched.running[c] == Some(u)
    requires c < |j.sched.running| && (j.sched.running[c] == Some(u) ==> SliceUsedUp(j.sched, u))
    ensures RunsOnOwnWindow(j, u, j'.world.sys.m)
  {
    hide S.Places, S.LiveCount, S.PopLive, R.Next, R.WorldOk, ShowsProcess, ShowsThread, Owned, ThreadFrames;
    var s := j.sched;
    var s' := S.StepKeeps(s, S.TickOn(c));
    S.QueuesLive(s');
    T.TickStanding(s, c);
    assert T.StandingAt(s, s', u);
    assert T.PidOk(s, u);
    var t := Owner(s, u);
    assert MemoryOp(j, TickOn(c)) == Some(R.Dispatch(t));
    assert T.IsMain(s, t) || IsKernel(s, u);
    R.DispatchShows(j.world, k, t, j'.world);
  }

  /** A new thread belongs to the process that started it: its pages are added to that
    * process, behind the pages it had, and it runs on that process's table. */
  lemma ThreadJoinsProcess(j: Joint, k: Kernel, p: nat, e: nat, args: bool, j': Joint)
    requires Invariant(j, k) && Enabled(j, SpawnThread(p, e, args)) && Next(j, k.upd, SpawnThread(p, e, args), j')
    ensures var t, procs, procs' := j.sched.count, j.world.sys.procs, j'.world.sys.procs;
            && S.Live(j'.sched, t) && Owner(j'.sched, t) == p && p in procs && p in procs'
            && procs'[p] == Process(procs[p].pd, procs[p].pages + if args then 3 else 2)
            && ShowsProcess(j'.world.sys.m, procs'[p]) && PagesKept(j.world.sys.m, j'.world.sys.m, procs[p])
  {
    hide S.Places, S.LiveCount, R.Next, R.WorldOk, ShowsProcess, PagesKept;
    S.NewThreadQueued(j.sched, S.UserCode, p, e, j'.sched);
    R.ThreadShows(j.world, k, p, args, j'.world);
  }

  /** A new process has the number of its main thread and the pages it asked for; a new kernel
    * thread has a table that was nobody's. */
  lemma NewcomerHasTable(j: Joint, k: Kernel, a: Step, j': Joint)
    requires Invariant(j, k) && Enabled(j, a) && Next(j, k.upd, a, j') && (a.Spawn? || a.SpawnKernel?)
    ensures var t := j.sched.count;
            && S.Live(j'.sched, t) && Owner(j'.sched, t) == t
            && (a.Spawn? ==> t in j'.world.sys.procs && j'.world.sys.procs[t].pages == a.pages)
            && (a.SpawnKernel? ==> t in j'.world.threads && t !in j.world.threads)
  {
    hide S.Places, S.LiveCount, R.Next, R.WorldOk, R.StepOk, S.HeadersOk;
    var i, _ := StepKeeps(j, k, a);
    match a {
      case Spawn(e, n) => S.NewProcessQueued(j.sched, e, j'.sched);
      case SpawnKernel(f, e) => S.NewThreadQueued(j.sched, f, S.KERNEL_PID, e, j'.sched);
    }
    assert !IsKernel(j.sched, j.sched.count);
  }

  predicate SliceUsedUp(s: S.Sched, u: nat)
  {
    S.Poppable(s, u) && s.tasks[u].value.tcb.value.slices == 0
  }

  /** In every state of every run of the whole kernel user code reaches nothing outside the
    * window. */
  lemma KernelClosed(states: seq<Joint>, steps: seq<Step>, k: Kernel, j: nat, v: nat)
    requires IsRun(states, steps, k.upd) && Invariant(states[0], k) && j <= |steps|
    requires PageOf(v) / 512 != WINDOW_BLOCK
    ensures var m := states[j].world.sys.m; WellSized(m) && ROOT < |m.mem| && !UserWalk(m.mem, ROOT, 4, v)
  {
    hide StepAt, S.Invariant, T.Orderly, Linked, Sound, Closed, PageOf, HasTable;
    var k' := RunKeepsInvariant(states, steps, k, j);
    ClosedToUsers(states[j].world.sys, k', v);
  }

  // ---------- Runs of the whole kernel ----------

  ghost predicate IsRun(states: seq<Joint>, steps: seq<Step>, upd: nat)
  {
    |states| == |steps| + 1 && forall i | 0 <= i < |steps| :: StepAt(states, steps, upd, i)
  }

  ghost predicate StepAt(states: seq<Joint>, steps: seq<Step>, upd: nat, i: nat)
    requires i < |steps| < |states|
  {
    S.Sized(states[i].sched) && Enabled(states[i], steps[i]) && Next(states[i], upd, steps[i], states[i + 1])
  }

  /** Kernel threads started before step j. */
  function KernelThreads(steps: seq<Step>, j: nat): nat
    requires j <= |steps|
  {
    if j == 0 then 0 else KernelThreads(steps, j - 1) + if steps[j - 1].SpawnKernel? then 1 else 0
  }

  /** In every state of every run both sides are in order and together: every live task has
    * its table, every frame in use is the kernel's or belongs to one live main thread, and no
    * table is freed while a task still runs on it. */
  lemma {:induction false} RunKeepsInvariant(states: seq<Joint>, steps: seq<Step>, k: Kernel, j: nat)
    returns (k': Kernel)
    requires IsRun(states, steps, k.upd) && Invariant(states[0], k) && j <= |steps|
    ensures Invariant(states[j], k') && k'.upd == k.upd && (forall t: nat :: HasTable(states[j], t))
    ensures k.base <= k'.base && |k'.base| == |k.base| + 3 * KernelThreads(steps, j)
    ensures |states[j].world.sys.m.mem| == |states[0].world.sys.m.mem|
    decreases j
  {
    hide Invariant, Enabled, Next;
    if j == 0 {
      k' := k;
    } else {
      var k1 := RunKeepsInvariant(states, steps, k, j - 1);
      assert StepAt(states, steps, k.upd, j - 1);
      var j';
      j', k' := StepKeeps(states[j - 1], k1, steps[j - 1]);
    }
    TablesThere(states[j], k');
  }

  /** The task table goes through a lawful run of the scheduler, step for step, so everything
    * proved about those runs holds here. */
  lemma SchedulerRun(states: seq<Joint>, steps: seq<Step>, upd: nat)
    requires IsRun(states, steps, upd)
    ensures T.LawfulRun(seq(|states|, i requires 0 <= i < |states| => states[i].sched),
                        seq(|steps|, i requires 0 <= i < |steps| => SchedStep(steps[i])))
  {
    hide S.Enabled, S.Next, T.Lawful, R.Enabled, R.Next, Fits, MemoryOp, SchedStep;
    var scheds := seq(|states|, i requires 0 <= i < |states| => states[i].sched);
    var acts := seq(|steps|, i requires 0 <= i < |steps| => SchedStep(steps[i]));
    forall i | 0 <= i < |acts|
      ensures S.Sized(scheds[i]) && S.Enabled(scheds[i], acts[i]) && S.Next(scheds[i], acts[i], scheds[i + 1])
      ensures T.Lawful(scheds[i], acts[i])
    {
      assert StepAt(states, steps, upd, i);
    }
  }

  /** What the steps that only concern the task table are for: the thread or the caller has
    * ended, the caller has no slices left, the front of the load queue is on a processor's
    * queue, the front of the reap queue is gone. */
  lemma StepsDoTheirWork(j: Joint, k: Kernel, a: Step, j': Joint)
    requires Invariant(j, k) && Enabled(j, a) && Next(j, k.upd, a, j')
    ensures a.EndThread? ==> S.HasEnded(j'.sched.tasks, a.tid)
    ensures a.EndOn? ==> a.cpu < |j.sched.running| && j.sched.running[a.cpu].Some?
                         && S.HasEnded(j'.sched.tasks, j.sched.running[a.cpu].value)
    ensures a.YieldOn? ==> a.cpu < |j.sched.running| && j.sched.running[a.cpu].Some?
                           && SliceUsedUp(j'.sched, j.sched.running[a.cpu].value)
    ensures a.Load? && j.sched.load != [] ==> S.Loaded(j.sched, j.sched.load[0], j'.sched)
    ensures a.Reap? && j.sched.reap != [] ==> S.Live(j.sched, j.sched.reap[0]) && !S.Live(j'.sched, j.sched.reap[0])
  {
    hide S.Places, S.LiveCount, S.Tick, R.Next, R.WorldOk;
    S.QueuesLive(j.sched);
    if a.Load? && j.sched.load != [] {
      S.LoadQueueMoves(j.sched, S.Load, j'.sched, j.sched.load[0], 0);
    }
  }

  /** No process is alive. */
  ghost predicate Idle(s: S.Sched)
  {
    forall t: nat :: !T.IsMain(s, t)
  }

  /** Whenever no process is alive, the frames in use are those of the start and three for
    * every kernel thread: what processes and their threads took has all come back. */
  lemma IdleConserves(states: seq<Joint>, steps: seq<Step>, k: Kernel, j: nat) returns (extra: set<nat>)
    requires IsRun(states, steps, k.upd) && Invariant(states[0], k) && j <= |steps|
    requires Idle(states[0].sched) && Idle(states[j].sched)
    ensures var bits, bits' := states[0].world.sys.m.frames.bits, states[j].world.sys.m.frames.bits;
            && |extra| == 3 * KernelThreads(steps, j) && |bits'| == |bits|
            && (forall x | x in extra :: x < |bits| && !bits[x])
            && (forall x | 0 <= x < |bits| :: bits'[x] == (bits[x] || x in extra))
            && (KernelThreads(steps, j) == 0 ==> bits' == bits)
  {
    hide StepAt, HasTable, Invariant, Idle, Partition;
    var k' := RunKeepsInvariant(states, steps, k, j);
    IdlePartition(states[0], k);
    IdlePartition(states[j], k');
    extra := k'.base - k.base;
    assert k'.base == k.base + extra;
    var bits, bits' := states[0].world.sys.m.frames.bits, states[j].world.sys.m.frames.bits;
    R.SamePartition(bits, bits', k.base, extra, map[]);
    assert KernelThreads(steps, j) == 0 ==> extra == {};
  }

  lemma IdlePartition(j: Joint, k: Kernel)
    requires Invariant(j, k) && Idle(j.sched)
    ensures Partition(j.world.sys.m.frames.bits, k.base, map[])
    ensures |j.world.sys.m.frames.bits| == |j.world.sys.m.mem|
  {
    hide S.Invariant, T.Orderly, Sound, Partition;
    assert j.world.sys.procs == map[];
    assert Shares(j.world.sys) == map[];
    R.SoundPartition(j.world.sys, k);
  }

  // ---------- The first state ----------

  function First(cpus: nat, w: R.World): Joint
  {
    Joint(S.Boot(cpus), w)
  }

  lemma FirstInvariant(cpus: nat, w: R.World, k: Kernel)
    requires cpus >= 2 && R.WorldOk(w, k) && w.sys.procs == map[] && w.threads == map[]
    ensures Invariant(First(cpus, w), k) && Idle(First(cpus, w).sched)
  {
    hide R.WorldOk, S.Invariant;
    S.BootInvariant(cpus);
    T.BootOrderly(cpus);
  }

  /** Start-up as `kernelMain` does it: the shell, the reaper and the loader. */
  lemma StartUp(cpus: nat, w: R.World, k: Kernel, n: nat) returns (states: seq<Joint>, k': Kernel)
    requires cpus >= 2 && R.WorldOk(w, k) && w.sys.procs == map[] && w.threads == map[] && w.kernelPages == 0
    requires 2 <= n <= 512 && n + 7 <= Clear(w.sys.m.frames.bits)
    ensures IsRun(states, [Spawn(1, n), SpawnKernel(S.Reaper, 8), SpawnKernel(S.Loader, 8)], k.upd)
    ensures states[0] == First(cpus, w) && Invariant(states[3], k') && k'.upd == k.upd
    ensures states[3].world.sys.procs.Keys == {0} && states[3].world.threads.Keys == {1, 2}
  {
    hide Invariant, R.WorldOk, R.Next, S.Invariant, R.Enabled, S.PushReady;
    var j0 := First(cpus, w);
    FirstInvariant(cpus, w, k);
    var j1, k1 := StepKeeps(j0, k, Spawn(1, n));
    FirstSpawned(j0, n, j1);
    var j2, k2 := StepKeeps(j1, k1, SpawnKernel(S.Reaper, 8));
    ThreadSpawned(j1, S.Reaper, j2);
    var j3;
    j3, k' := StepKeeps(j2, k2, SpawnKernel(S.Loader, 8));
    states := [j0, j1, j2, j3];
  }

  lemma FirstSpawned(j: Joint, n: nat, j': Joint)
    requires S.Sized(j.sched) && j.sched.count < 100 && S.Next(j.sched, S.NewProcess(1), j'.sched)
    ensures S.Sized(j'.sched) && j'.sched.count == j.sched.count + 1
    ensures forall t: nat | t > j.sched.count :: S.Live(j'.sched, t) == S.Live(j.sched, t)
  {
  }

  lemma ThreadSpawned(j: Joint, f: S.Entry, j': Joint)
    requires S.Sized(j.sched) && j.sched.count < 100 && S.Next(j.sched, S.NewThread(f, S.KERNEL_PID, 8), j'.sched)
    ensures S.Sized(j'.sched) && j'.sched.count == j.sched.count + 1
    ensures forall t: nat | t > j.sched.count :: S.Live(j'.sched, t) == S.Live(j.sched, t)
  {
  }

  // ---------- What goes wrong otherwise ----------

  lemma ReapedProcs(w: R.World, upd: nat, t: nat, w': R.World)
    requires R.InRange(w.sys, upd) && R.Next(w, upd, R.FreeTask(t), w')
    ensures w'.sys.procs == w.sys.procs - {t} && w'.threads == w.threads
  {
  }

  /** Reaping a main thread leaves every live task its table if and only if no thread of that
    * process is left, which is what `endTask` is meant to see to. */
  lemma ReapKeepsTablesIff(j: Joint, upd: nat, j': Joint)
    requires S.Invariant(j.sched) && Linked(j) && (forall t: nat :: HasTable(j, t))
    requires j.sched.reap != [] && T.IsMain(j.sched, j.sched.reap[0]) && Next(j, upd, Reap, j')
    ensures (forall u: nat :: HasTable(j', u)) <==> (forall u: nat :: !S.IsChild(j.sched, j.sched.reap[0], u))
  {
    hide S.Places, S.LiveCount, R.Next, R.Enabled;
    var t, s, s' := j.sched.reap[0], j.sched, j'.sched;
    S.QueuesLive(s);
    ReapedProcs(j.world, upd, t, j'.world);
    ReapedRoles(s);
    forall u: nat
      ensures HasTable(j', u) <==> !S.IsChild(s, t, u)
    {
      assert HasTable(j, u);
    }
  }
}
