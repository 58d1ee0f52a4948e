/** Processes and their threads in the task table: what `endTask` reaches, and what holds when
  * a main thread is reaped (src/kernel/task/task.cpp). */
module Threads {
  import opened Options
  import opened Scheduler

  // ---------- endTask(pid) ----------

  /** The loop of `endTask(pid)` leaves every thread of the process marked if and only if every
    * thread whose number is beyond `tasksCount` was marked before: those it does not visit. */
  lemma EndMarksAllIff(s: Sched, p: int)
    requires Sized(s) && HeadersOk(s) && s.count < MAX_TASKS_COUNT
    ensures (forall t: nat | IsChild(s, p, t) :: HasEnded(MarkBelow(s, p, s.count + 1).tasks, t)) <==>
            (forall t: nat | IsChild(s, p, t) && t > s.count :: HasEnded(s.tasks, t))
  {
    var s' := MarkBelow(s, p, s.count + 1);
    forall t: nat | IsChild(s, p, t)
      ensures HasEnded(s'.tasks, t) <==> t <= s.count || HasEnded(s.tasks, t)
    {
    }
  }

  /** Who is touched by `endTask()` on processor c: the caller, and if it is a main thread its
    * threads with numbers up to `tasksCount`. */
  predicate Reaches(s: Sched, t: nat, u: nat)
  {
    u == t || (IsMain(s, t) && IsChild(s, t, u) && u <= s.count)
  }

  /** A call of `endTask()` ends exactly those: they are marked, every other task, of the same
    * process or not, keeps its entry, and nothing is moved. Only a caller that was marked
    * before loses its thread header. When no thread of a main thread has a number beyond
    * `tasksCount`, the call ends the whole process. */
  lemma EndCallEnds(s: Sched, c: nat)
    requires Invariant(s) && c < |s.running| && s.running[c].Some? && Poppable(s, s.running[c].value)
    ensures var t, s' := s.running[c].value, EndCall(s, c);
            && s' == s.(tasks := s'.tasks) && |s'.tasks| == |s.tasks|
            && (forall u: nat | u < |s.tasks| && Reaches(s, t, u) ::
                  HasEnded(s'.tasks, u) && s'.tasks[u].value.pid == s.tasks[u].value.pid)
            && (forall u: nat | u < |s.tasks| && !Reaches(s, t, u) :: s'.tasks[u] == s.tasks[u])
            && (forall u: nat | u < |s.tasks| && Reaches(s, t, u) && u != t :: Poppable(s', u))
            && (Poppable(s', t) <==> !s.tasks[t].value.tcb.value.ended)
            && (IsMain(s, t) && (forall u: nat | IsChild(s, t, u) :: u <= s.count) ==>
                  forall u: nat | Live(s, u) && s.tasks[u].value.pid == t :: HasEnded(s'.tasks, u))
  {
    hide Places, LiveCount;
    var t, s' := s.running[c].value, EndCall(s, c);
    assert forall u: nat | IsMain(s, t) && Live(s, u) && s.tasks[u].value.pid == t :: u == t || IsChild(s, t, u);
  }

  // ---------- Threads and their main thread ----------

  /** The main thread of process p is there and has not ended. */
  predicate MainAlive(s: Sched, p: int)
  {
    0 <= p && Live(s, p) && s.tasks[p].value.pid == p && !Ended(s.tasks[p].value)
  }

  predicate IsMain(s: Sched, t: nat)
  {
    Live(s, t) && s.tasks[t].value.pid == t
  }

  /** A live task is a kernel thread, a main thread, or a thread whose main thread lives. */
  predicate PidOk(s: Sched, u: nat)
  {
    Live(s, u) ==>
      var p := s.tasks[u].value.pid;
      p == KERNEL_PID || p == u || MainAlive(s, p)
  }

  /** So for all tasks; kernel threads never end, and what waits for the reaper has ended. */
  ghost predicate Orderly(s: Sched)
  {
    && (forall u: nat | u < |s.tasks| :: PidOk(s, u))
    && (forall u: nat | u < |s.tasks| :: HasEnded(s.tasks, u) ==> s.tasks[u].value.pid != KERNEL_PID)
    && (forall i | 0 <= i < |s.reap| :: HasEnded(s.tasks, s.reap[i]))
  }

  /** What the callers of each operation do: processes have numbers that fit `pid`; only a
    * living main thread starts threads; it ends when its threads are gone; the loader and
    * the reaper never end. */
  ghost predicate Lawful(s: Sched, a: Step)
  {
    match a
    case NewProcess(_) => s.count < 128
    case NewThread(_, p, _) => p == KERNEL_PID || MainAlive(s, p)
    case EndThread(t) => Live(s, t) ==> s.tasks[t].value.pid != t && s.tasks[t].value.pid != KERNEL_PID
    case EndOn(c) =>
      c < |s.running| && s.running[c].Some? && Live(s, s.running[c].value) ==>
        && s.tasks[s.running[c].value].value.pid != KERNEL_PID
        && (forall u: nat :: !IsChild(s, s.running[c].value, u))
    case _ => true
  }

  // ---------- Steps that only move tasks ----------

  /** Task t is as live, as ended and of the same process as before. */
  predicate StandingAt(s: Sched, s': Sched, t: nat)
    requires t < |s.tasks| == |s'.tasks|
  {
    && (s'.tasks[t].Some? <==> s.tasks[t].Some?)
    && (s.tasks[t].Some? ==>
          s'.tasks[t].value.pid == s.tasks[t].value.pid && Ended(s'.tasks[t].value) == Ended(s.tasks[t].value))
  }

  ghost predicate SameStanding(s: Sched, s': Sched)
  {
    |s'.tasks| == |s.tasks| && forall t: nat | t < |s.tasks| :: StandingAt(s, s', t)
  }

  ghost predicate ReapGrows(s: Sched, s': Sched)
  {
    && s.reap <= s'.reap
    && forall i | |s.reap| <= i < |s'.reap| :: HasEnded(s.tasks, s'.reap[i])
  }

  lemma {:induction false} PopLiveStanding(s: Sched, c: nat)
    requires TickOk(s, c)
    ensures SameStanding(s, PopLive(s, c)) && ReapGrows(s, PopLive(s, c))
    decreases |s.ready[c]|
  {
    if s.ready[c] != [] {
      var t := s.ready[c][0];
      assert Poppable(s, t);
      if Ended(s.tasks[t].value) {
        var s2 := s.(ready := s.ready[c := s.ready[c][1..]], reap := s.reap + [t]);
        assert forall i | 0 <= i < |s2.ready[c]| :: s2.ready[c][i] == s.ready[c][i + 1];
        PopLiveStanding(s2, c);
        Composed(s, s2, PopLive(s2, c));
      }
    }
  }

  lemma TickStanding(s: Sched, c: nat)
    requires Invariant(s) && c < |s.ready|
    ensures TickOk(s, c) && SameStanding(s, Tick(s, c)) && ReapGrows(s, Tick(s, c))
  {
    hide PopLive, Places, LiveCount, SameStanding, ReapGrows;
    QueuesLive(s);
    if s.running[c].None? {
      PopLiveStanding(s, c);
    } else if KeepsRunning(s, c) {
      CountDown(s, c);
    } else {
      PutAwayKeeps(s, c);
      PopLiveStanding(PutAway(s, c), c);
      PutAwayReaps(s, c);
      Composed(s, PutAway(s, c), PopLive(PutAway(s, c), c));
    }
  }

  lemma CountDown(s: Sched, c: nat)
    requires TickOk(s, c) && s.running[c].Some? && KeepsRunning(s, c)
    ensures SameStanding(s, Tick(s, c)) && ReapGrows(s, Tick(s, c))
  {
  }

  lemma PutAwayReaps(s: Sched, c: nat)
    requires TickOk(s, c) && s.running[c].Some?
    ensures PutAway(s, c).tasks == s.tasks && ReapGrows(s, PutAway(s, c))
  {
  }

  lemma Composed(s: Sched, s1: Sched, s2: Sched)
    requires s1.tasks == s.tasks && ReapGrows(s, s1) && SameStanding(s1, s2) && ReapGrows(s1, s2)
    ensures SameStanding(s, s2) && ReapGrows(s, s2)
  {
    assert forall t: nat | t < |s.tasks| :: StandingAt(s1, s2, t) ==> StandingAt(s, s2, t);
  }

  lemma StandingKeepsOrder(s: Sched, s': Sched)
    requires Orderly(s) && SameStanding(s, s') && ReapGrows(s, s')
    ensures Orderly(s')
  {
    forall u: nat | u < |s'.tasks|
      ensures PidOk(s', u) && (HasEnded(s'.tasks, u) ==> s'.tasks[u].value.pid != KERNEL_PID)
    {
      assert StandingAt(s, s', u) && PidOk(s, u);
      if Live(s, u) && 0 <= s.tasks[u].value.pid < |s.tasks| {
        assert StandingAt(s, s', s.tasks[u].value.pid);
      }
    }
    forall i | 0 <= i < |s'.reap|
      ensures HasEnded(s'.tasks, s'.reap[i])
    {
      assert HasEnded(s.tasks, s'.reap[i]);
      assert StandingAt(s, s', s'.reap[i]);
    }
  }

  // ---------- Every step keeps order ----------

  /** A step that changes the entry of one task only and leaves the reap queue. */
  ghost predicate OneEntry(s: Sched, s': Sched, t: nat)
  {
    && t < |s.tasks| == |s'.tasks| && s'.reap == s.reap
    && forall u: nat | u < |s.tasks| && u != t :: s'.tasks[u] == s.tasks[u]
  }

  /** Entering a task in a free slot: its process is new, the kernel's, or alive. */
  lemma EnterOrderly(s: Sched, s': Sched, t: nat)
    requires Orderly(s) && OneEntry(s, s', t) && !Live(s, t) && Live(s', t) && !Ended(s'.tasks[t].value)
    requires var p := s'.tasks[t].value.pid; p == t || p == KERNEL_PID || MainAlive(s, p)
    ensures Orderly(s')
  {
    forall u: nat | u < |s'.tasks|
      ensures PidOk(s', u)
    {
      assert PidOk(s, u);
    }
    assert forall u: nat | u < |s'.tasks| && u != t :: HasEnded(s'.tasks, u) ==> HasEnded(s.tasks, u);
  }

  /** Marking a task that is nobody's main thread, or whose threads are gone. */
  lemma MarkOrderly(s: Sched, t: nat)
    requires Orderly(s) && Poppable(s, t) && s.tasks[t].value.pid != KERNEL_PID
    requires s.tasks[t].value.pid != t || forall u: nat :: !IsChild(s, t, u)
    ensures Orderly(EndChild(s, t))
  {
    var s' := EndChild(s, t);
    forall u: nat | u < |s'.tasks|
      ensures PidOk(s', u)
    {
      assert PidOk(s, u);
      assert s.tasks[t].value.pid == t ==> !IsChild(s, t, u);
    }
    assert forall u: nat | u < |s'.tasks| && u != t :: HasEnded(s'.tasks, u) == HasEnded(s.tasks, u);
  }

  /** Reaping a task that has ended: if it is a main thread, its threads are gone. */
  lemma ReapOrderly(s: Sched)
    requires Invariant(s) && Orderly(s) && s.reap != []
    ensures IsMain(s, s.reap[0]) ==> forall u: nat :: !IsChild(s, s.reap[0], u)
    ensures (forall i | 0 <= i < |s.reap| :: s.reap[i] < |s.tasks|) && Orderly(ReapOne(s))
  {
    hide Places, LiveCount;
    QueuesLive(s);
    var t := s.reap[0];
    assert HasEnded(s.tasks, t);
    var s' := ReapOne(s);
    forall u: nat
      ensures PidOk(s', u) && (u != t ==> HasEnded(s'.tasks, u) == HasEnded(s.tasks, u))
      ensures IsMain(s, t) ==> !IsChild(s, t, u)
    {
      assert u < |s.tasks| ==> PidOk(s, u);
    }
    NotTwice(s);
    forall i | 0 <= i < |s'.reap|
      ensures HasEnded(s'.tasks, s'.reap[i])
    {
      assert s'.reap[i] == s.reap[i + 1] && HasEnded(s.tasks, s.reap[i + 1]);
    }
  }

  /** No number waits twice for the reaper. */
  lemma NotTwice(s: Sched)
    requires Invariant(s) && s.reap != []
    ensures s.reap[0] !in s.reap[1..]
  {
    var t := s.reap[0];
    OccPop(s.reap, t);
    OccIn(s.reap[1..], t);
    assert Places(s, t) <= 1;
  }

  lemma StepOrderly(s: Sched, a: Step, s': Sched)
    requires Invariant(s) && Orderly(s) && Enabled(s, a) && Lawful(s, a) && Next(s, a, s')
    ensures Orderly(s')
  {
    hide Places, LiveCount, Tick;
    QueuesLive(s);
    match a {
      case NewProcess(e) => EnterOrderly(s, s', s.count);
      case NewThread(f, p, e) =>
        if s.count < MAX_TASKS_COUNT {
          EnterOrderly(s, s', s.count);
        }
      case Load => MovedOrderly(s, s');
      case Reap =>
        if s.reap != [] {
          ReapOrderly(s);
        }
      case TickOn(c) =>
        TickStanding(s, c);
        StandingKeepsOrder(s, s');
      case YieldOn(c) =>
        YieldStanding(s, c);
        StandingKeepsOrder(s, s');
      case EndThread(t) => MarkOrderly(s, t);
      case EndOn(c) => MarkOrderly(s, s.running[c].value);
    }
  }

  lemma MovedOrderly(s: Sched, s': Sched)
    requires Orderly(s) && s'.tasks == s.tasks && s'.reap == s.reap
    ensures Orderly(s')
  {
    assert forall u: nat | u < |s.tasks| :: PidOk(s, u) ==> PidOk(s', u);
  }

  lemma YieldStanding(s: Sched, c: nat)
    requires c < |s.running| && s.running[c].Some? && Poppable(s, s.running[c].value)
    ensures SameStanding(s, Yield(s, c)) && ReapGrows(s, Yield(s, c))
  {
  }

  ghost predicate LawfulRun(states: seq<Sched>, steps: seq<Step>)
  {
    IsRun(states, steps) && forall i | 0 <= i < |steps| :: Lawful(states[i], steps[i])
  }

  /** Over every lawful run no thread outlives its main thread: when a main thread is reaped,
    * with it the page table of the process, no live task of that process is left. */
  lemma {:induction false} NoThreadOutlivesProcess(states: seq<Sched>, steps: seq<Step>, j: nat)
    requires LawfulRun(states, steps) && Invariant(states[0]) && Orderly(states[0]) && j <= |steps|
    ensures Invariant(states[j]) && Orderly(states[j])
    ensures var s := states[j];
            s.reap != [] && IsMain(s, s.reap[0]) ==> forall u: nat :: !IsChild(s, s.reap[0], u)
    decreases j
  {
    hide Lawful, Enabled, Next, Orderly;
    RunKeepsInvariant(states, steps, j);
    if j > 0 {
      NoThreadOutlivesProcess(states, steps, j - 1);
      StepOrderly(states[j - 1], steps[j - 1], states[j]);
    }
    if states[j].reap != [] {
      ReapOrderly(states[j]);
    }
  }

  // ---------- endTask() of a main thread ----------

  /** The loop has begun in s0 and waited for every thread it visited; since then the main
    * thread on c has started none. Then ending it keeps order if and only if no thread is
    * left, which is so whenever all of them had numbers up to `tasksCount` at the start. */
  lemma EndMainOrderlyIff(s0: Sched, s: Sched, c: nat)
    requires Invariant(s) && Orderly(s) && c < |s.running| && s.running[c].Some?
    requires Poppable(s, s.running[c].value) && IsMain(s, s.running[c].value) && MainAlive(s, s.running[c].value)
    requires forall u: nat | IsChild(s, s.running[c].value, u) :: IsChild(s0, s.running[c].value, u) && u > s0.count
    ensures var t := s.running[c].value;
            && (Orderly(EndSelf(s, c)) <==> forall u: nat :: !IsChild(s, t, u))
            && ((forall u: nat | IsChild(s0, t, u) :: u <= s0.count) ==> Orderly(EndSelf(s, c)))
  {
    hide Places, LiveCount;
    var t := s.running[c].value;
    if u: nat :| IsChild(s, t, u) {
      assert !PidOk(EndSelf(s, c), u);
    } else {
      MarkOrderly(s, t);
    }
  }

  // ---------- Runs that go wrong ----------

  function User(pid: int): Task
  {
    NewTask(pid, 1, false)
  }

  /** The table with tasks of process 0 in its first slots. */
  function Table(xs: seq<Option<Task>>): seq<Option<Task>>
    requires |xs| <= MAX_TASKS_COUNT
  {
    seq(MAX_TASKS_COUNT, i requires 0 <= i => if i < |xs| then xs[i] else None)
  }

  /** Two processors, nothing running. */
  function State(xs: seq<Option<Task>>, count: nat, load: seq<nat>, reap: seq<nat>, q0: seq<nat>, q1: seq<nat>): Sched
    requires |xs| <= MAX_TASKS_COUNT
  {
    Sched(Table(xs), count, load, reap, [q0, q1], [None, None], 1)
  }

  lemma BootIsState()
    ensures Boot(2) == State([], 0, [], [], [], [])
  {
    var s := Boot(2);
    assert s.tasks == Table([]) && s.ready == [[], []] && s.running == [None, None];
  }

  lemma TableAt(xs: seq<Option<Task>>, i: nat, x: Option<Task>)
    requires i < |xs| <= MAX_TASKS_COUNT
    ensures Table(xs)[i := x] == Table(xs[i := x])
  {
  }

  lemma TableEnter(xs: seq<Option<Task>>, x: Task)
    requires |xs| < MAX_TASKS_COUNT
    ensures Table(xs)[|xs| := Some(x)] == Table(xs + [Some(x)])
  {
  }

  lemma FirstProcess()
    ensures Sized(Boot(2)) && Enabled(Boot(2), NewProcess(1)) && Lawful(Boot(2), NewProcess(1))
    ensures Next(Boot(2), NewProcess(1), State([Some(User(0))], 1, [], [], [0], []))
  {
    BootIsState();
    TableEnter([], User(0));
    assert [] + [Some(User(0))] == [Some(User(0))];
    var qs: seq<seq<nat>> := [[], []];
    assert qs[0] + [0] == [0];
    assert qs[0 := [0]] == [[0], []];
  }

  lemma MoreThread(xs: seq<Option<Task>>, load: seq<nat>)
    requires 0 < |xs| < 100 && xs[0] == Some(User(0))
    ensures var s, a := State(xs, |xs|, load, [], [0], []), NewThread(UserCode, 0, 1);
            && Sized(s) && Enabled(s, a) && Lawful(s, a)
            && Next(s, a, State(xs + [Some(User(0))], |xs| + 1, load + [|xs|], [], [0], []))
  {
    TableEnter(xs, User(0));
  }

  lemma LoadNext(xs: seq<Option<Task>>, load: seq<nat>, q1: seq<nat>)
    requires 0 < |xs| < 100 && load != [] && load[0] < |xs| && xs[load[0]] == Some(User(0))
    requires forall i | 0 <= i < |load| :: load[i] < |xs|
    ensures var s := State(xs, |xs|, load, [], [0], q1);
            && Sized(s) && Enabled(s, Load) && Lawful(s, Load)
            && Next(s, Load, State(xs, |xs|, load[1..], [], [0], q1 + [load[0]]))
  {
    assert [[0], q1][1 := q1 + [load[0]]] == [[0], q1 + [load[0]]];
  }

  lemma MarkNext(xs: seq<Option<Task>>, count: nat, load: seq<nat>, q1: seq<nat>, t: nat)
    requires 0 < t < |xs| < 100 && xs[t] == Some(User(0))
    ensures var s := State(xs, count, load, [], [0], q1);
            && Sized(s) && Enabled(s, EndThread(t)) && Lawful(s, EndThread(t))
            && Next(s, EndThread(t), State(xs[t := Some(Marked(User(0)))], count, load, [], [0], q1))
  {
    TableAt(xs, t, Some(Marked(User(0))));
  }

  lemma DropsFirst(s: Sched, c: nat)
    requires TickOk(s, c) && s.running[c] == None && s.ready[c] != [] && HasEnded(s.tasks, s.ready[c][0])
    ensures var s' := s.(ready := s.ready[c := s.ready[c][1..]], reap := s.reap + [s.ready[c][0]]);
            TickOk(s', c) && Tick(s, c) == Tick(s', c)
  {
    hide PopLive;
    DropEnded(s, c);
  }

  /** The tick of a waiting processor hands two marked threads to the reaper. */
  lemma DropTwo(xs: seq<Option<Task>>, count: nat, load: seq<nat>)
    requires 3 <= |xs| < 100 && xs[1] == xs[2] == Some(Marked(User(0)))
    ensures var s := State(xs, count, load, [], [0], [1, 2]);
            && Sized(s) && Enabled(s, TickOn(1)) && Lawful(s, TickOn(1))
            && Next(s, TickOn(1), State(xs, count, load, [1, 2], [0], []))
  {
    var s := State(xs, count, load, [], [0], [1, 2]);
    DropsFirst(s, 1);
    var s1 := State(xs, count, load, [1], [0], [2]);
    assert [1, 2][1..] == [2] && s.ready[1 := [2]] == s1.ready && s.reap + [1] == [1];
    DropsFirst(s1, 1);
    var s2 := State(xs, count, load, [1, 2], [0], []);
    assert [2][1..] == [] && s1.ready[1 := []] == s2.ready && [1] + [2] == [1, 2];
    assert s2.running[1 := None] == s2.running;
    assert Tick(s2, 1) == s2;
  }

  lemma ReapNext(xs: seq<Option<Task>>, count: nat, load: seq<nat>, reap: seq<nat>)
    requires 0 < |xs| < 100 && count > 0 && reap != [] && reap[0] < |xs| && xs[reap[0]].Some?
    requires forall i | 0 <= i < |reap| :: reap[i] < |xs|
    ensures var s := State(xs, count, load, reap, [0], []);
            && Sized(s) && Enabled(s, Reap) && Lawful(s, Reap)
            && Next(s, Reap, State(xs[reap[0] := None], count - 1, load, reap[1..], [0], []))
  {
    TableAt(xs, reap[0], None);
  }

  /** State s is at the end of a lawful run from the first state. */
  ghost predicate Reached(s: Sched)
  {
    exists states: seq<Sched>, steps: seq<Step> ::
      LawfulRun(states, steps) && states[0] == Boot(2) && states[|steps|] == s
  }

  lemma Begin()
    ensures Reached(Boot(2))
  {
    var states: seq<Sched>, steps: seq<Step> := [Boot(2)], [];
    assert LawfulRun(states, steps);
  }

  lemma Further(s: Sched, a: Step, s': Sched)
    requires Reached(s) && Sized(s) && Enabled(s, a) && Lawful(s, a) && Next(s, a, s')
    ensures Reached(s')
  {
    hide Enabled, Lawful, Next;
    var states: seq<Sched>, steps: seq<Step> :|
      LawfulRun(states, steps) && states[0] == Boot(2) && states[|steps|] == s;
    var states1, steps1 := states + [s'], steps + [a];
    forall i | 0 <= i < |steps1|
      ensures Sized(states1[i]) && Enabled(states1[i], steps1[i]) && Lawful(states1[i], steps1[i])
      ensures Next(states1[i], steps1[i], states1[i + 1])
    {
      if i < |steps| {
        assert Lawful(states[i], steps[i]);
      }
    }
    assert LawfulRun(states1, steps1);
  }

  /** Process 0 and its threads 1, 2 and 3; the first two are loaded. */
  lemma ThreeThreads()
    ensures Reached(State([Some(User(0)), Some(User(0)), Some(User(0)), Some(User(0))], 4, [3], [], [0], [1, 2]))
  {
    hide Enabled, Lawful, Next, State, Reached, Boot;
    var u := Some(User(0));
    var step := NewThread(UserCode, 0, 1);
    Begin();
    FirstProcess();
    Further(Boot(2), NewProcess(1), State([u], 1, [], [], [0], []));
    MoreThread([u], []);
    assert [u] + [u] == [u, u] && [] + [1] == [1];
    Further(State([u], 1, [], [], [0], []), step, State([u, u], 2, [1], [], [0], []));
    MoreThread([u, u], [1]);
    assert [u, u] + [u] == [u, u, u] && [1] + [2] == [1, 2];
    Further(State([u, u], 2, [1], [], [0], []), step, State([u, u, u], 3, [1, 2], [], [0], []));
    MoreThread([u, u, u], [1, 2]);
    assert [u, u, u] + [u] == [u, u, u, u] && [1, 2] + [3] == [1, 2, 3];
    Further(State([u, u, u], 3, [1, 2], [], [0], []), step, State([u, u, u, u], 4, [1, 2, 3], [], [0], []));
    LoadNext([u, u, u, u], [1, 2, 3], []);
    assert [1, 2, 3][1..] == [2, 3];
    Further(State([u, u, u, u], 4, [1, 2, 3], [], [0], []), Load, State([u, u, u, u], 4, [2, 3], [], [0], [1]));
    LoadNext([u, u, u, u], [2, 3], [1]);
    assert [2, 3][1..] == [3];
    Further(State([u, u, u, u], 4, [2, 3], [], [0], [1]), Load, State([u, u, u, u], 4, [3], [], [0], [1, 2]));
  }

  /** A lawful run after which `endTask` of the main thread misses one of its threads: of three
    * threads the first two ended and were reaped, so the third has a number beyond the count. */
  lemma MissedThread() returns (s: Sched)
    ensures Reached(s) && MainAlive(s, 0) && s.count == 2 && IsChild(s, 0, 3) && !HasEnded(s.tasks, 3)
    ensures !HasEnded(MarkBelow(s, 0, s.count + 1).tasks, 3)
  {
    hide Enabled, Lawful, Next, State, Reached;
    var u: Option<Task>, m: Option<Task>, n: Option<Task> := Some(User(0)), Some(Marked(User(0))), None;
    ThreeThreads();
    MarkNext([u, u, u, u], 4, [3], [1, 2], 1);
    assert [u, u, u, u][1 := m] == [u, m, u, u];
    Further(State([u, u, u, u], 4, [3], [], [0], [1, 2]), EndThread(1), State([u, m, u, u], 4, [3], [], [0], [1, 2]));
    MarkNext([u, m, u, u], 4, [3], [1, 2], 2);
    assert [u, m, u, u][2 := m] == [u, m, m, u];
    Further(State([u, m, u, u], 4, [3], [], [0], [1, 2]), EndThread(2), State([u, m, m, u], 4, [3], [], [0], [1, 2]));
    DropTwo([u, m, m, u], 4, [3]);
    Further(State([u, m, m, u], 4, [3], [], [0], [1, 2]), TickOn(1), State([u, m, m, u], 4, [3], [1, 2], [0], []));
    ReapNext([u, m, m, u], 4, [3], [1, 2]);
    assert [u, m, m, u][1 := n] == [u, n, m, u] && [1, 2][1..] == [2];
    Further(State([u, m, m, u], 4, [3], [1, 2], [0], []), Reap, State([u, n, m, u], 3, [3], [2], [0], []));
    ReapNext([u, n, m, u], 3, [3], [2]);
    assert [u, n, m, u][2 := n] == [u, n, n, u] && [2][1..] == [];
    s := State([u, n, n, u], 2, [3], [], [0], []);
    Further(State([u, n, m, u], 3, [3], [2], [0], []), Reap, s);
    MissedState([u, n, n, u]);
  }

  lemma MissedState(xs: seq<Option<Task>>)
    requires |xs| == 4 && xs[0] == xs[3] == Some(User(0))
    ensures var s := State(xs, 2, [3], [], [0], []);
            && MainAlive(s, 0) && s.count == 2 && IsChild(s, 0, 3) && !HasEnded(s.tasks, 3)
            && !HasEnded(MarkBelow(s, 0, s.count + 1).tasks, 3)
  {
  }

  // ---------- A thread that ends twice ----------

  lemma OneThread()
    ensures Reached(State([Some(User(0)), Some(User(0))], 2, [], [], [0], [1]))
  {
    hide Enabled, Lawful, Next, State, Reached, Boot;
    var u := Some(User(0));
    Begin();
    FirstProcess();
    Further(Boot(2), NewProcess(1), State([u], 1, [], [], [0], []));
    MoreThread([u], []);
    assert [u] + [u] == [u, u] && [] + [1] == [1];
    Further(State([u], 1, [], [], [0], []), NewThread(UserCode, 0, 1), State([u, u], 2, [1], [], [0], []));
    LoadNext([u, u], [1], []);
    assert [1][1..] == [];
    Further(State([u, u], 2, [1], [], [0], []), Load, State([u, u], 2, [], [], [0], [1]));
  }

  /** A lawful run to a thread that runs although its main thread has already marked it. If it
    * now calls `endTask` itself, the next tick leaves it in the table and in no queue. */
  lemma ForgottenThread() returns (s: Sched)
    ensures Reached(s) && 1 < |s.running| && s.running[1] == Some(1) && HasEnded(s.tasks, 1)
    ensures Poppable(s, 1) && s.tasks[1].value.tcb.value.ended
    ensures TickOk(EndSelf(s, 1), 1) && !Placed(Tick(EndSelf(s, 1), 1))
  {
    hide Enabled, Lawful, Next, Reached, Boot, Tick;
    var u := Some(User(0));
    OneThread();
    var s0 := State([u, u], 2, [], [], [0], [1]);
    StartsFirst(s0, 1, 1);
    var s1 := Tick(s0, 1);
    Further(s0, TickOn(1), s1);
    s := MarkRunning(s1);
    ReachedInvariant(s);
    EndSelfPlacedIff(s, 1);
  }

  lemma MarkRunning(s1: Sched) returns (s: Sched)
    requires Reached(s1) && Sized(s1) && s1.running[1] == Some(1) && Poppable(s1, 1) && s1.tasks[1].value.pid == 0
    ensures Reached(s) && Sized(s) && s.running[1] == Some(1) && Poppable(s, 1) && HasEnded(s.tasks, 1)
    ensures s.tasks[1].value.tcb.value.ended
  {
    hide Reached;
    s := EndChild(s1, 1);
    Further(s1, EndThread(1), s);
  }

  lemma StartsFirst(s: Sched, c: nat, t: nat)
    requires Sized(s) && c < |s.ready| && s.running[c] == None && s.ready[c] == [t] && Poppable(s, t)
    requires !Ended(s.tasks[t].value)
    ensures TickOk(s, c) && Enabled(s, TickOn(c)) && Lawful(s, TickOn(c)) && Next(s, TickOn(c), Tick(s, c))
    ensures var s' := Tick(s, c);
            Sized(s') && s'.running[c] == Some(t) && Poppable(s', t) && s'.tasks[t].value.pid == s.tasks[t].value.pid
  {
  }

  lemma ReachedInvariant(s: Sched)
    requires Reached(s)
    ensures Invariant(s) && Orderly(s)
  {
    hide Invariant, Orderly, Enabled, Next, Lawful;
    var states: seq<Sched>, steps: seq<Step> :|
      LawfulRun(states, steps) && states[0] == Boot(2) && states[|steps|] == s;
    BootInvariant(2);
    BootOrderly(2);
    NoThreadOutlivesProcess(states, steps, |steps|);
  }

  lemma BootOrderly(cpus: nat)
    ensures Orderly(Boot(cpus))
  {
  }
}
