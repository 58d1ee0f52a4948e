/** The task table, the per-CPU ready queues, the loader and the reaper of
  * src/kernel/task/task.cpp as a step system. Each step is atomic; queues are the
  * sequences that `Queue` implements. */
module Scheduler {
  import opened Options

  const MAX_TASKS_COUNT := 255
  const TIME_SLICE := 2

  /** Thread header: `statusEnd` and the 8-bit `timeSlices`. */
  datatype Tcb = Tcb(ended: bool, slices: nat)

  const KERNEL_PID := -1

  /** A task; `pid` is the number of its process's main thread, as a signed byte, and
    * `pinned` says that it runs the loader or the reaper. The thread header is missing once
    * `endTask` has freed it. */
  datatype Task = Task(pid: int, ended: bool, tcb: Option<Tcb>, estimate: nat, pinned: bool)

  datatype Sched = Sched(tasks: seq<Option<Task>>, count: nat, load: seq<nat>, reap: seq<nat>,
                         ready: seq<seq<nat>>, running: seq<Option<nat>>, ap: nat)

  // ---------- Where a task number occurs ----------

  function Occ(q: seq<nat>, t: nat): nat
  {
    multiset(q)[t]
  }

  function Queued(qs: seq<seq<nat>>, t: nat): nat
  {
    if qs == [] then 0 else Occ(qs[0], t) + Queued(qs[1..], t)
  }

  function OnCpus(rs: seq<Option<nat>>, t: nat): nat
  {
    if rs == [] then 0 else (if rs[0] == Some(t) then 1 else 0) + OnCpus(rs[1..], t)
  }

  /** How many places hold t: load queue, reap queue, ready queues, processors. */
  function Places(s: Sched, t: nat): nat
  {
    Occ(s.load, t) + Occ(s.reap, t) + Queued(s.ready, t) + OnCpus(s.running, t)
  }

  predicate Live(s: Sched, t: nat)
  {
    t < |s.tasks| && s.tasks[t].Some?
  }

  function LiveCount(tasks: seq<Option<Task>>): nat
  {
    if tasks == [] then 0 else (if tasks[0].Some? then 1 else 0) + LiveCount(tasks[1..])
  }

  predicate Sized(s: Sched)
  {
    && |s.tasks| == MAX_TASKS_COUNT
    && |s.ready| == |s.running| >= 2
    && 1 <= s.ap < |s.ready|
  }

  /** Every live task is in exactly one place and every dead number in none. */
  ghost predicate Placed(s: Sched)
  {
    forall t: nat :: Places(s, t) == if Live(s, t) then 1 else 0
  }

  ghost predicate HeadersOk(s: Sched)
  {
    forall t | 0 <= t < |s.tasks| && s.tasks[t].Some? ::
      s.tasks[t].value.tcb.Some? && s.tasks[t].value.tcb.value.slices < 256
  }

  ghost predicate Invariant(s: Sched)
  {
    Sized(s) && s.count == LiveCount(s.tasks) && Placed(s) && HeadersOk(s)
  }

  // ---------- Counting lemmas ----------

  lemma {:induction false} QueuedUpdate(qs: seq<seq<nat>>, c: nat, q: seq<nat>, t: nat)
    requires c < |qs|
    ensures Queued(qs[c := q], t) == Queued(qs, t) - Occ(qs[c], t) + Occ(q, t)
    ensures Queued(qs, t) >= Occ(qs[c], t)
    decreases c
  {
    if c == 0 {
      assert qs[c := q][1..] == qs[1..];
    } else {
      assert qs[c := q][1..] == qs[1..][c - 1 := q];
      QueuedUpdate(qs[1..], c - 1, q, t);
    }
  }

  lemma {:induction false} OnCpusUpdate(rs: seq<Option<nat>>, c: nat, r: Option<nat>, t: nat)
    requires c < |rs|
    ensures OnCpus(rs[c := r], t) ==
            OnCpus(rs, t) - (if rs[c] == Some(t) then 1 else 0) + (if r == Some(t) then 1 else 0)
    ensures rs[c] == Some(t) ==> OnCpus(rs, t) >= 1
    decreases c
  {
    if c == 0 {
      assert rs[c := r][1..] == rs[1..];
    } else {
      assert rs[c := r][1..] == rs[1..][c - 1 := r];
      OnCpusUpdate(rs[1..], c - 1, r, t);
    }
  }

  lemma {:induction false} LiveCountUpdate(tasks: seq<Option<Task>>, i: nat, x: Option<Task>)
    requires i < |tasks|
    ensures LiveCount(tasks[i := x]) ==
            LiveCount(tasks) - (if tasks[i].Some? then 1 else 0) + (if x.Some? then 1 else 0)
    ensures tasks[i].Some? ==> LiveCount(tasks) >= 1
    decreases i
  {
    if i == 0 {
      assert tasks[i := x][1..] == tasks[1..];
    } else {
      assert tasks[i := x][1..] == tasks[1..][i - 1 := x];
      LiveCountUpdate(tasks[1..], i - 1, x);
    }
  }

  lemma OccPush(q: seq<nat>, x: nat, t: nat)
    ensures Occ(q + [x], t) == Occ(q, t) + if x == t then 1 else 0
  {
  }

  lemma OccPop(q: seq<nat>, t: nat)
    requires q != []
    ensures Occ(q, t) == Occ(q[1..], t) + if q[0] == t then 1 else 0
  {
    assert q == [q[0]] + q[1..];
  }

  lemma OccIn(q: seq<nat>, t: nat)
    ensures t in q <==> Occ(q, t) >= 1
  {
    assert t in q <==> t in multiset(q);
  }

  // ---------- The steps ----------

  predicate Ended(x: Task)
  {
    x.ended || (x.tcb.Some? && x.tcb.value.ended)
  }

  function PushReady(s: Sched, c: nat, t: nat): Sched
    requires c < |s.ready|
  {
    s.(ready := s.ready[c := s.ready[c] + [t]])
  }

  /** `tid = tasksCount++` and the new table entry. */
  function Enter(s: Sched, x: Task): Sched
    requires s.count < |s.tasks|
  {
    s.(tasks := s.tasks[s.count := Some(x)], count := s.count + 1)
  }

  function NewTask(pid: int, estimate: nat, pinned: bool): Task
  {
    Task(pid, false, Some(Tcb(false, 0)), estimate, pinned)
  }

  /** A new process goes to the first processor's queue; its `pid` is its own number, as far
    * as that fits. A full table refuses. */
  function CreateProcess(s: Sched, estimate: nat): Sched
    requires |s.tasks| == MAX_TASKS_COUNT && s.count <= MAX_TASKS_COUNT && |s.ready| > 0
  {
    if s.count == MAX_TASKS_COUNT then s
    else PushReady(Enter(s, NewTask(Int8(s.count), estimate, false)), 0, s.count)
  }

  datatype Entry = Loader | Reaper | UserCode

  /** A new thread gets the `pid` of the header it was created with and waits for the loader,
    * except the loader itself. */
  function CreateThread(s: Sched, func: Entry, pid: int, estimate: nat): Sched
    requires |s.tasks| == MAX_TASKS_COUNT && s.count <= MAX_TASKS_COUNT && |s.ready| > 0
  {
    if s.count == MAX_TASKS_COUNT then s
    else
      var s1 := Enter(s, NewTask(pid, estimate, func != UserCode));
      if func == Loader then PushReady(s1, 0, s.count) else s1.(load := s1.load + [s.count])
  }

  /** One round of the loader loop. */
  function LoadOne(s: Sched): Sched
    requires Sized(s) && forall i | 0 <= i < |s.load| :: s.load[i] < |s.tasks|
  {
    if s.load == [] then s
    else
      var t := s.load[0];
      var s1 := s.(load := s.load[1..]);
      if s.tasks[t].None? then s1
      else if s.tasks[t].value.pinned then PushReady(s1, 0, t)
      else PushReady(s1, s.ap, t).(ap := if s.ap + 1 == |s.ready| then 1 else s.ap + 1)
  }

  /** One round of the reaper loop: `freeTask`. */
  function ReapOne(s: Sched): Sched
    requires forall i | 0 <= i < |s.reap| :: s.reap[i] < |s.tasks|
  {
    if s.reap == [] then s
    else
      var t := s.reap[0];
      var s1 := s.(reap := s.reap[1..]);
      if s.tasks[t].None? then s1
      else s1.(tasks := s.tasks[t := None], count := if s.count == 0 then 255 else s.count - 1)
  }

  /** The task may be popped: it exists and has its thread header. */
  predicate Poppable(s: Sched, t: nat)
  {
    Live(s, t) && s.tasks[t].value.tcb.Some?
  }

  /** The pop loop of `schedule`: ended tasks go to the reaper, the first other one runs.
    * With an empty queue the processor keeps waiting. */
  function PopLive(s: Sched, c: nat): (s': Sched)
    requires c < |s.ready| && c < |s.running| && forall i | 0 <= i < |s.ready[c]| :: Poppable(s, s.ready[c][i])
    ensures |s'.ready| == |s.ready| && |s'.running| == |s.running| && |s'.tasks| == |s.tasks|
    decreases |s.ready[c]|
  {
    if s.ready[c] == [] then s.(running := s.running[c := None])
    else
      var t := s.ready[c][0];
      assert Poppable(s, t);
      var s1 := s.(ready := s.ready[c := s.ready[c][1..]]);
      assert forall i | 0 <= i < |s1.ready[c]| :: s1.ready[c][i] == s.ready[c][i + 1] && Poppable(s, s1.ready[c][i]);
      var x := s.tasks[t].value;
      if Ended(x) then PopLive(s1.(reap := s1.reap + [t]), c)
      else
        var x' := x.(tcb := Some(x.tcb.value.(slices := x.estimate * TIME_SLICE % 256)));
        s1.(tasks := s.tasks[t := Some(x')], running := s.running[c := Some(t)])
  }

  /** The task on the processor is put away: to the reaper if it ended, to its queue's end
    * otherwise, nowhere if its thread header is gone. */
  function PutAway(s: Sched, c: nat): Sched
    requires c < |s.ready| && c < |s.running| && s.running[c].Some? && Live(s, s.running[c].value)
  {
    var t := s.running[c].value;
    var x := s.tasks[t].value;
    var s1 := s.(running := s.running[c := None]);
    if x.tcb.None? then s1
    else if Ended(x) then s1.(reap := s1.reap + [t])
    else PushReady(s1, c, t)
  }

  /** The time slice is not used up: the tick only counts it down. */
  predicate KeepsRunning(s: Sched, c: nat)
    requires c < |s.running| && (s.running[c].Some? ==> Live(s, s.running[c].value))
  {
    && s.running[c].Some?
    && var x := s.tasks[s.running[c].value].value;
       x.tcb.Some? && !Ended(x) && x.tcb.value.slices > 0
  }

  predicate TickOk(s: Sched, c: nat)
  {
    && c < |s.ready| && c < |s.running|
    && (forall i | 0 <= i < |s.ready[c]| :: Poppable(s, s.ready[c][i]))
    && (s.running[c].Some? ==> Live(s, s.running[c].value))
  }

  /** `schedule` on processor c, or another look at the queue of a processor that waits. */
  function Tick(s: Sched, c: nat): Sched
    requires TickOk(s, c)
  {
    if s.running[c].None? then PopLive(s, c)
    else if KeepsRunning(s, c) then
      var t := s.running[c].value;
      var x := s.tasks[t].value;
      s.(tasks := s.tasks[t := Some(x.(tcb := Some(x.tcb.value.(slices := x.tcb.value.slices - 1))))])
    else
      PopLive(PutAway(s, c), c)
  }

  /** `schedYield`, and every syscall that gives up its slice. */
  function Yield(s: Sched, c: nat): Sched
    requires c < |s.running| && s.running[c].Some? && Poppable(s, s.running[c].value)
  {
    var t := s.running[c].value;
    var x := s.tasks[t].value;
    s.(tasks := s.tasks[t := Some(x.(tcb := Some(x.tcb.value.(slices := 0))))])
  }

  /** `statusEnd` in both headers, and no slices left. */
  function Marked(x: Task): Task
  {
    x.(ended := true, tcb := Some(Tcb(true, 0)))
  }

  /** The body of the loop of `endTask(pid)` for one thread of the process. */
  function EndChild(s: Sched, t: nat): Sched
    requires Poppable(s, t)
  {
    s.(tasks := s.tasks[t := Some(Marked(s.tasks[t].value))])
  }

  /** A thread of process p other than its main thread. */
  predicate IsChild(s: Sched, p: int, t: nat)
  {
    Live(s, t) && s.tasks[t].value.pid == p && t != p
  }

  /** What the loop of `endTask(pid)` does to the table: threads of p below n are marked. */
  function MarkBelow(s: Sched, p: int, n: nat): Sched
  {
    s.(tasks := seq(|s.tasks|, i requires 0 <= i < |s.tasks| =>
      if i < n && IsChild(s, p, i) then Some(Marked(s.tasks[i].value)) else s.tasks[i]))
  }

  /** `endTask()` by the task on processor c, past the loop: a task that is already marked
    * loses its header. */
  function EndSelf(s: Sched, c: nat): Sched
    requires c < |s.running| && s.running[c].Some? && Poppable(s, s.running[c].value)
  {
    var t := s.running[c].value;
    var x := s.tasks[t].value;
    if x.tcb.value.ended then s.(tasks := s.tasks[t := Some(x.(ended := true, tcb := None))])
    else EndChild(s, t)
  }

  /** The changes of one whole call of `endTask()`: a main thread first marks its threads. */
  function EndCall(s: Sched, c: nat): Sched
    requires c < |s.running| && s.running[c].Some? && Poppable(s, s.running[c].value)
  {
    var t := s.running[c].value;
    EndSelf(if s.tasks[t].value.pid == t then MarkBelow(s, t, s.count + 1) else s, c)
  }

  // ---------- Every step keeps the invariant ----------

  /** Two states hold every number equally often. */
  ghost predicate SamePlaces(s: Sched, s': Sched)
  {
    forall t: nat :: Places(s', t) == Places(s, t)
  }

  lemma InPlace(s: Sched, t: nat)
    requires Placed(s)
    requires t in s.load || t in s.reap || (exists c | 0 <= c < |s.ready| :: t in s.ready[c])
             || (exists c | 0 <= c < |s.running| :: s.running[c] == Some(t))
    ensures Live(s, t)
  {
    OccIn(s.load, t);
    OccIn(s.reap, t);
    forall c | 0 <= c < |s.ready| && t in s.ready[c]
      ensures Queued(s.ready, t) >= 1
    {
      OccIn(s.ready[c], t);
      QueuedUpdate(s.ready, c, s.ready[c], t);
    }
    forall c | 0 <= c < |s.running| && s.running[c] == Some(t)
      ensures OnCpus(s.running, t) >= 1
    {
      OnCpusUpdate(s.running, c, None, t);
    }
    assert Places(s, t) >= 1;
  }

  /** What the steps need of the queues follows from the invariant. */
  lemma QueuesLive(s: Sched)
    requires Invariant(s)
    ensures forall i | 0 <= i < |s.load| :: s.load[i] < |s.tasks| && Live(s, s.load[i])
    ensures forall i | 0 <= i < |s.reap| :: s.reap[i] < |s.tasks| && Live(s, s.reap[i])
    ensures forall c | 0 <= c < |s.ready| :: TickOk(s, c)
    ensures forall c | 0 <= c < |s.running| && s.running[c].Some? :: Poppable(s, s.running[c].value)
  {
    forall i | 0 <= i < |s.load|
      ensures Live(s, s.load[i])
    {
      InPlace(s, s.load[i]);
    }
    forall i | 0 <= i < |s.reap|
      ensures Live(s, s.reap[i])
    {
      InPlace(s, s.reap[i]);
    }
    forall c, i | 0 <= c < |s.ready| && 0 <= i < |s.ready[c]|
      ensures Poppable(s, s.ready[c][i])
    {
      InPlace(s, s.ready[c][i]);
    }
    forall c | 0 <= c < |s.running| && s.running[c].Some?
      ensures Poppable(s, s.running[c].value)
    {
      InPlace(s, s.running[c].value);
    }
  }

  lemma PushReadyPlaces(s: Sched, c: nat, x: nat)
    requires c < |s.ready|
    ensures forall t: nat :: Places(PushReady(s, c, x), t) == Places(s, t) + if t == x then 1 else 0
  {
    forall t: nat
      ensures Places(PushReady(s, c, x), t) == Places(s, t) + if t == x then 1 else 0
    {
      QueuedUpdate(s.ready, c, s.ready[c] + [x], t);
      OccPush(s.ready[c], x, t);
    }
  }

  lemma PushReapPlaces(s: Sched, x: nat)
    ensures forall t: nat :: Places(s.(reap := s.reap + [x]), t) == Places(s, t) + if t == x then 1 else 0
  {
    forall t: nat
      ensures Places(s.(reap := s.reap + [x]), t) == Places(s, t) + if t == x then 1 else 0
    {
      OccPush(s.reap, x, t);
    }
  }

  lemma PopReadyPlaces(s: Sched, c: nat)
    requires c < |s.ready| && s.ready[c] != []
    ensures var s' := s.(ready := s.ready[c := s.ready[c][1..]]);
            forall t: nat :: Places(s, t) == Places(s', t) + if t == s.ready[c][0] then 1 else 0
  {
    var s' := s.(ready := s.ready[c := s.ready[c][1..]]);
    forall t: nat
      ensures Places(s, t) == Places(s', t) + if t == s.ready[c][0] then 1 else 0
    {
      QueuedUpdate(s.ready, c, s.ready[c][1..], t);
      OccPop(s.ready[c], t);
    }
  }

  lemma RunningPlaces(s: Sched, c: nat, r: Option<nat>)
    requires c < |s.running|
    ensures forall t: nat :: Places(s.(running := s.running[c := r]), t) ==
              Places(s, t) - (if s.running[c] == Some(t) then 1 else 0) + (if r == Some(t) then 1 else 0)
  {
    forall t: nat
      ensures Places(s.(running := s.running[c := r]), t) ==
              Places(s, t) - (if s.running[c] == Some(t) then 1 else 0) + (if r == Some(t) then 1 else 0)
    {
      OnCpusUpdate(s.running, c, r, t);
    }
  }

  /** The pop loop only moves numbers, and touches only the header of the task it starts. */
  lemma {:induction false} PopLiveKeeps(s: Sched, c: nat)
    requires Sized(s) && TickOk(s, c) && s.running[c].None?
    ensures var s' := PopLive(s, c);
            && Sized(s') && SamePlaces(s, s') && (HeadersOk(s) ==> HeadersOk(s'))
            && s'.count == s.count && LiveCount(s'.tasks) == LiveCount(s.tasks)
            && (forall t: nat :: Live(s', t) <==> Live(s, t))
    decreases |s.ready[c]|
  {
    hide LiveCount, Occ, Queued, OnCpus;
    if s.ready[c] == [] {
      RunningPlaces(s, c, None);
    } else {
      var t := s.ready[c][0];
      var s1 := s.(ready := s.ready[c := s.ready[c][1..]]);
      PopReadyPlaces(s, c);
      if Ended(s.tasks[t].value) {
        var s2 := s1.(reap := s1.reap + [t]);
        PushReapPlaces(s1, t);
        assert forall i | 0 <= i < |s2.ready[c]| :: s2.ready[c][i] == s.ready[c][i + 1];
        PopLiveKeeps(s2, c);
      } else {
        LiveCountUpdate(s.tasks, t, PopLive(s, c).tasks[t]);
        RunningPlaces(s1, c, Some(t));
        assert forall u: nat :: Places(PopLive(s, c), u) == Places(s1.(running := s1.running[c := Some(t)]), u);
      }
    }
  }

  lemma PutAwayKeeps(s: Sched, c: nat)
    requires Sized(s) && TickOk(s, c) && HeadersOk(s)
    requires s.running[c].Some? && s.tasks[s.running[c].value].value.tcb.Some?
    ensures var s' := PutAway(s, c);
            && Sized(s') && SamePlaces(s, s') && TickOk(s', c) && s'.running[c].None?
            && s'.tasks == s.tasks && s'.count == s.count
  {
    hide LiveCount, Occ, Queued, OnCpus;
    var t := s.running[c].value;
    var s1 := s.(running := s.running[c := None]);
    RunningPlaces(s, c, None);
    PushReapPlaces(s1, t);
    PushReadyPlaces(s1, c, t);
  }

  lemma TickKeeps(s: Sched, c: nat)
    requires Invariant(s) && c < |s.ready|
    ensures TickOk(s, c) && Invariant(Tick(s, c))
  {
    QueuesLive(s);
    if s.running[c].None? {
      PopLiveKeeps(s, c);
    } else if KeepsRunning(s, c) {
      HeaderChangeKeeps(s, s.running[c].value, Tick(s, c).tasks[s.running[c].value]);
    } else {
      PutAwayKeeps(s, c);
      PopLiveKeeps(PutAway(s, c), c);
    }
  }

  /** Changing a header of a live task moves nothing. */
  lemma HeaderChangeKeeps(s: Sched, t: nat, x: Option<Task>)
    requires Invariant(s) && Live(s, t) && x.Some? && x.value.tcb.Some? && x.value.tcb.value.slices < 256
    ensures Invariant(s.(tasks := s.tasks[t := x]))
  {
    var s' := s.(tasks := s.tasks[t := x]);
    LiveCountUpdate(s.tasks, t, x);
    assert forall u: nat :: Places(s', u) == Places(s, u);
  }

  lemma LoadKeeps(s: Sched)
    requires Invariant(s)
    ensures (forall i | 0 <= i < |s.load| :: s.load[i] < |s.tasks|) && Invariant(LoadOne(s))
  {
    hide LiveCount, Occ, Queued, OnCpus;
    QueuesLive(s);
    if s.load != [] {
      var t := s.load[0];
      var s1 := s.(load := s.load[1..]);
      forall u: nat
        ensures Places(s, u) == Places(s1, u) + if u == t then 1 else 0
      {
        OccPop(s.load, u);
      }
      if s.tasks[t].value.pinned {
        PushReadyPlaces(s1, 0, t);
      } else {
        PushReadyPlaces(s1, s.ap, t);
      }
      assert forall u: nat :: Places(LoadOne(s), u) == Places(s, u);
    }
  }

  /** Reaping frees a task that is nowhere else, and exactly one. */
  lemma ReapKeeps(s: Sched)
    requires Invariant(s)
    ensures (forall i | 0 <= i < |s.reap| :: s.reap[i] < |s.tasks|) && Invariant(ReapOne(s))
    ensures s.reap != [] ==> Live(s, s.reap[0]) && !Live(ReapOne(s), s.reap[0]) && Places(ReapOne(s), s.reap[0]) == 0
    ensures s.reap != [] ==>
              && ReapOne(s) == s.(tasks := ReapOne(s).tasks, count := ReapOne(s).count, reap := s.reap[1..])
              && ReapOne(s).count + 1 == s.count
              && forall u | 0 <= u < |s.tasks| && u != s.reap[0] ::
                   u < |ReapOne(s).tasks| && ReapOne(s).tasks[u] == s.tasks[u]
  {
    hide LiveCount, Occ, Queued, OnCpus;
    QueuesLive(s);
    if s.reap != [] {
      var t := s.reap[0];
      LiveCountUpdate(s.tasks, t, None);
      forall u: nat
        ensures Places(s, u) == Places(ReapOne(s), u) + if u == t then 1 else 0
      {
        OccPop(s.reap, u);
      }
    }
  }

  /** Entering a task in the slot `tasksCount` and queueing it. */
  lemma EnterPlaces(s: Sched, x: Task, s': Sched)
    requires Sized(s) && s.count < MAX_TASKS_COUNT
    requires s' == PushReady(Enter(s, x), 0, s.count) || s' == Enter(s, x).(load := s.load + [s.count])
    ensures forall t: nat :: Places(s', t) == Places(s, t) + if t == s.count then 1 else 0
    ensures Sized(s')
  {
    var s1 := Enter(s, x);
    assert forall t: nat :: Places(s1, t) == Places(s, t);
    PushReadyPlaces(s1, 0, s.count);
    forall t: nat
      ensures Places(s1.(load := s1.load + [s.count]), t) == Places(s1, t) + if t == s.count then 1 else 0
    {
      OccPush(s1.load, s.count, t);
    }
  }

  /** Creating a task is sound exactly when the slot `tasksCount` is free: a live slot is
    * overwritten and its number ends up in two places. */
  lemma CreateKeepsIff(s: Sched, x: Task, s': Sched)
    requires Invariant(s) && s.count < MAX_TASKS_COUNT && x.tcb.Some? && x.tcb.value.slices < 256
    requires s' == PushReady(Enter(s, x), 0, s.count) || s' == Enter(s, x).(load := s.load + [s.count])
    ensures Invariant(s') <==> !Live(s, s.count)
  {
    EnterPlaces(s, x, s');
    LiveCountUpdate(s.tasks, s.count, Some(x));
    if Live(s, s.count) {
      assert Places(s', s.count) == 2;
    }
  }

  lemma EndChildKeeps(s: Sched, t: nat)
    requires Invariant(s) && Live(s, t)
    ensures Poppable(s, t) && Invariant(EndChild(s, t)) && Ended(EndChild(s, t).tasks[t].value)
  {
    HeaderChangeKeeps(s, t, EndChild(s, t).tasks[t]);
  }

  /** A task that calls `endTask` after it was already marked loses its header, and the next
    * tick drops it: alive, counted, and in no queue. Exactly then the placement breaks. */
  lemma EndSelfPlacedIff(s: Sched, c: nat)
    requires Invariant(s) && c < |s.running| && s.running[c].Some?
    ensures Poppable(s, s.running[c].value) && TickOk(EndSelf(s, c), c)
    ensures Placed(Tick(EndSelf(s, c), c)) <==> !s.tasks[s.running[c].value].value.tcb.value.ended
  {
    QueuesLive(s);
    var t := s.running[c].value;
    if !s.tasks[t].value.tcb.value.ended {
      EndChildKeeps(s, t);
      TickKeeps(EndSelf(s, c), c);
    } else {
      NotQueued(s, c);
      var s1 := EndSelf(s, c);
      forall i | 0 <= i < |s1.ready[c]|
        ensures Poppable(s1, s1.ready[c][i])
      {
        assert TickOk(s, c) && Poppable(s, s.ready[c][i]) && s.ready[c][i] != t;
      }
      var s2 := PutAway(s1, c);
      assert forall u: nat :: Places(s1, u) == Places(s, u);
      RunningPlaces(s1, c, None);
      PopLiveKeeps(s2, c);
      assert Places(s2, t) == 0 && Live(Tick(s1, c), t);
    }
  }

  /** The task on a processor is not also in that processor's queue. */
  lemma NotQueued(s: Sched, c: nat)
    requires Invariant(s) && c < |s.running| && s.running[c].Some?
    ensures s.running[c].value !in s.ready[c]
  {
    var t := s.running[c].value;
    OnCpusUpdate(s.running, c, None, t);
    QueuedUpdate(s.ready, c, s.ready[c], t);
    OccIn(s.ready[c], t);
    assert Places(s, t) <= 1;
  }

  // ---------- Order of service ----------

  predicate HasEnded(tasks: seq<Option<Task>>, t: nat)
  {
    t < |tasks| && tasks[t].Some? && Ended(tasks[t].value)
  }

  /** Length of the run of ended tasks at the front of a queue. */
  function EndedAhead(tasks: seq<Option<Task>>, q: seq<nat>): (k: nat)
    ensures k <= |q| && (forall i | 0 <= i < k :: HasEnded(tasks, q[i]))
    ensures k < |q| ==> !HasEnded(tasks, q[k])
  {
    if q == [] || !HasEnded(tasks, q[0]) then 0 else 1 + EndedAhead(tasks, q[1..])
  }

  /** First in, first out: with k ended tasks in front, task k runs, with a slice of twice its
    * estimate in 8 bits; those before it go to the reaper in order; the rest stays. */
  ghost predicate ServedInOrder(s: Sched, c: nat, s': Sched)
    requires c < |s.ready|
  {
    var q := s.ready[c];
    var k := EndedAhead(s.tasks, q);
    && c < |s'.running| && c < |s'.ready| && s'.reap == s.reap + q[..k]
    && (k == |q| ==> s'.running[c] == None && s'.ready[c] == [] && s'.tasks == s.tasks)
    && (k < |q| ==>
          && s'.running[c] == Some(q[k]) && s'.ready[c] == q[k + 1..]
          && Poppable(s, q[k]) && Poppable(s', q[k])
          && s'.tasks[q[k]].value.tcb.value.slices == s.tasks[q[k]].value.estimate * 2 % 256
          && (forall u | 0 <= u < |s.tasks| && u != q[k] :: u < |s'.tasks| && s'.tasks[u] == s.tasks[u]))
  }

  /** A processor that looks for work serves its queue in order. */
  lemma {:induction false} PopLiveOrder(s: Sched, c: nat)
    requires TickOk(s, c) && s.running[c].None?
    ensures ServedInOrder(s, c, PopLive(s, c))
    decreases |s.ready[c]|
  {
    hide PopLive;
    var q := s.ready[c];
    if q != [] && HasEnded(s.tasks, q[0]) {
      var s2 := s.(ready := s.ready[c := q[1..]], reap := s.reap + [q[0]]);
      DropEnded(s, c);
      PopLiveOrder(s2, c);
      var k := EndedAhead(s.tasks, q);
      assert s.reap + [q[0]] + q[1..][..k - 1] == s.reap + q[..k];
    } else {
      PopFirst(s, c);
    }
  }

  lemma DropEnded(s: Sched, c: nat)
    requires TickOk(s, c) && s.ready[c] != [] && HasEnded(s.tasks, s.ready[c][0])
    ensures var s2 := s.(ready := s.ready[c := s.ready[c][1..]], reap := s.reap + [s.ready[c][0]]);
            TickOk(s2, c) && PopLive(s, c) == PopLive(s2, c)
  {
    assert forall i | 0 <= i < |s.ready[c][1..]| :: s.ready[c][1..][i] == s.ready[c][i + 1];
  }

  lemma PopFirst(s: Sched, c: nat)
    requires TickOk(s, c) && s.running[c].None? && (s.ready[c] == [] || !HasEnded(s.tasks, s.ready[c][0]))
    ensures ServedInOrder(s, c, PopLive(s, c))
  {
    assert s.ready[c] != [] ==> Poppable(s, s.ready[c][0]);
    assert s.reap + s.ready[c][..0] == s.reap;
  }

  /** A running task that has ended is handed to the reaper at the next tick. */
  lemma TickReapsEnded(s: Sched, c: nat)
    requires Invariant(s) && c < |s.ready| && s.running[c].Some?
    ensures TickOk(s, c) && Poppable(s, s.running[c].value)
    ensures Ended(s.tasks[s.running[c].value].value) ==> s.running[c].value in Tick(s, c).reap
  {
    QueuesLive(s);
    if Ended(s.tasks[s.running[c].value].value) {
      PutAwayKeeps(s, c);
      PopLiveOrder(PutAway(s, c), c);
      assert s.running[c].value in PutAway(s, c).reap;
    }
  }

  function LoadMany(s: Sched, n: nat): Sched
    requires Sized(s) && forall i | 0 <= i < |s.load| :: s.load[i] < |s.tasks|
    decreases n
  {
    if n == 0 then s else LoadMany(LoadOne(s), n - 1)
  }

  /** Turns until the loader, standing at `ap`, serves processor c of 1..w. */
  function Turn(ap: nat, c: nat, w: nat): nat
    requires 1 <= ap <= w && 1 <= c <= w
  {
    if c >= ap then c - ap else c + w - ap
  }

  /** The loader deals threads out in turn: the first n of its queue go to n different
    * processors, never to the first one. */
  lemma {:induction false} LoaderRoundRobin(s: Sched, n: nat)
    requires Sized(s) && n < |s.ready| && n <= |s.load|
    requires forall i | 0 <= i < |s.load| :: Live(s, s.load[i])
    requires forall i | 0 <= i < n :: Live(s, s.load[i]) && !s.tasks[s.load[i]].value.pinned
    ensures forall i | 0 <= i < |s.load| :: s.load[i] < |s.tasks|
    ensures var s', w := LoadMany(s, n), |s.ready| - 1;
            && |s'.ready| == |s.ready| && s'.ready[0] == s.ready[0]
            && s'.load == s.load[n..] && s'.ap == (if s.ap + n <= w then s.ap + n else s.ap + n - w)
            && (forall c | 1 <= c <= w ::
                  s'.ready[c] == s.ready[c] + if Turn(s.ap, c, w) < n then [s.load[Turn(s.ap, c, w)]] else [])
    decreases n
  {
    if n > 0 {
      var s1 := LoadOne(s);
      assert forall i | 0 <= i < |s1.load| :: s1.load[i] == s.load[i + 1];
      LoaderRoundRobin(s1, n - 1);
    }
  }

  // ---------- Runs ----------

  datatype Step =
    | NewProcess(estimate: nat)
    | NewThread(func: Entry, pid: int, estimate: nat)
    | Load
    | Reap
    | TickOn(cpu: nat)
    | YieldOn(cpu: nat)
    | EndThread(tid: nat)
    | EndOn(cpu: nat)

  /** When a step may happen: the slot `tasksCount` is free for a new task, the processor
    * exists and runs something, a task is not ended by itself once it has been marked. */
  ghost predicate Enabled(s: Sched, a: Step)
    requires Sized(s)
  {
    match a
    case NewProcess(_) => !Live(s, s.count)
    case NewThread(_, _, _) => !Live(s, s.count)
    case Load => true
    case Reap => true
    case TickOn(c) => c < |s.ready|
    case YieldOn(c) => c < |s.ready| && s.running[c].Some?
    case EndThread(t) => Live(s, t)
    case EndOn(c) =>
      && c < |s.ready| && s.running[c].Some?
      && (Poppable(s, s.running[c].value) ==> !s.tasks[s.running[c].value].value.tcb.value.ended)
  }

  /** The state after a step; it is only there if the step touches no missing task. */
  ghost predicate Next(s: Sched, a: Step, s': Sched)
    requires Sized(s)
  {
    match a
    case NewProcess(e) => s.count <= MAX_TASKS_COUNT && s' == CreateProcess(s, e)
    case NewThread(f, pid, e) => s.count <= MAX_TASKS_COUNT && s' == CreateThread(s, f, pid, e)
    case Load => (forall i | 0 <= i < |s.load| :: s.load[i] < |s.tasks|) && s' == LoadOne(s)
    case Reap => (forall i | 0 <= i < |s.reap| :: s.reap[i] < |s.tasks|) && s' == ReapOne(s)
    case TickOn(c) => TickOk(s, c) && s' == Tick(s, c)
    case YieldOn(c) => c < |s.running| && s.running[c].Some? && Poppable(s, s.running[c].value) && s' == Yield(s, c)
    case EndThread(t) => Poppable(s, t) && s' == EndChild(s, t)
    case EndOn(c) => c < |s.running| && s.running[c].Some? && Poppable(s, s.running[c].value) && s' == EndSelf(s, c)
  }

  lemma {:induction false} LiveCountBound(tasks: seq<Option<Task>>)
    ensures LiveCount(tasks) <= |tasks|
  {
    if tasks != [] {
      LiveCountBound(tasks[1..]);
    }
  }

  /** In a state that satisfies the invariant no enabled step meets a missing task or header,
    * and its result satisfies the invariant again. */
  lemma StepKeeps(s: Sched, a: Step) returns (s': Sched)
    requires Invariant(s) && Enabled(s, a)
    ensures Next(s, a, s') && Invariant(s')
  {
    QueuesLive(s);
    LiveCountBound(s.tasks);
    match a {
      case NewProcess(e) =>
        s' := CreateProcess(s, e);
        if s.count < MAX_TASKS_COUNT {
          CreateKeepsIff(s, NewTask(Int8(s.count), e, false), s');
        }
      case NewThread(f, pid, e) =>
        s' := CreateThread(s, f, pid, e);
        if s.count < MAX_TASKS_COUNT {
          CreateKeepsIff(s, NewTask(pid, e, f != UserCode), s');
        }
      case Load =>
        LoadKeeps(s);
        s' := LoadOne(s);
      case Reap =>
        ReapKeeps(s);
        s' := ReapOne(s);
      case TickOn(c) =>
        TickKeeps(s, c);
        s' := Tick(s, c);
      case YieldOn(c) =>
        s' := Yield(s, c);
        HeaderChangeKeeps(s, s.running[c].value, s'.tasks[s.running[c].value]);
      case EndThread(t) =>
        EndChildKeeps(s, t);
        s' := EndChild(s, t);
      case EndOn(c) =>
        EndChildKeeps(s, s.running[c].value);
        s' := EndSelf(s, c);
    }
  }

  /** States and the steps between them. */
  ghost predicate IsRun(states: seq<Sched>, steps: seq<Step>)
  {
    && |states| == |steps| + 1
    && (forall i | 0 <= i < |steps| ::
          Sized(states[i]) && Enabled(states[i], steps[i]) && Next(states[i], steps[i], states[i + 1]))
  }

  /** Over whole runs: every live task is in exactly one place, `tasksCount` is the number of
    * live slots, and so nothing missing is ever popped, freed twice, or freed while queued. */
  lemma {:induction false} RunKeepsInvariant(states: seq<Sched>, steps: seq<Step>, j: nat)
    requires IsRun(states, steps) && Invariant(states[0]) && j <= |steps|
    ensures Invariant(states[j])
    decreases j
  {
    if j > 0 {
      RunKeepsInvariant(states, steps, j - 1);
      var s' := StepKeeps(states[j - 1], steps[j - 1]);
    }
  }

  // ---------- Bounded waiting ----------

  /** Ticks the running task of c may still use. */
  function SlicesLeft(s: Sched, c: nat): nat
    requires c < |s.running| && (s.running[c].Some? ==> Poppable(s, s.running[c].value))
  {
    if s.running[c].None? || Ended(s.tasks[s.running[c].value].value) then 0
    else s.tasks[s.running[c].value].value.tcb.value.slices
  }

  /** Task t waits at position k of the queue of c. */
  predicate WaitsAt(s: Sched, c: nat, t: nat, k: nat)
  {
    c < |s.ready| && k < |s.ready[c]| && s.ready[c][k] == t
  }

  /** It has been given the processor, or handed to the reaper. */
  predicate Served(s: Sched, c: nat, t: nat)
  {
    c < |s.running| && (s.running[c] == Some(t) || t in s.reap)
  }

  /** The measure: ticks until the queue in front of the task is used up, at worst. */
  function Measure(s: Sched, c: nat, k: nat): nat
    requires c < |s.running| && (s.running[c].Some? ==> Poppable(s, s.running[c].value))
  {
    256 * k + SlicesLeft(s, c)
  }

  /** The task waits, at a measure of at most m. */
  ghost predicate WaitsWithin(s: Sched, c: nat, t: nat, m: nat)
  {
    && c < |s.running| && (s.running[c].Some? ==> Poppable(s, s.running[c].value))
    && exists k: nat :: WaitsAt(s, c, t, k) && Measure(s, c, k) <= m
  }

  /** The pop loop serves the task or moves it up, never back. */
  lemma {:induction false} PopLiveProgress(s: Sched, c: nat, t: nat, k: nat)
    requires TickOk(s, c) && s.running[c].None? && WaitsAt(s, c, t, k)
    ensures var s' := PopLive(s, c);
            Served(s', c, t) || exists j | 0 <= j < k :: WaitsAt(s', c, t, j)
    ensures s.reap <= PopLive(s, c).reap
    ensures PopLive(s, c).running[c].Some? ==>
              Poppable(PopLive(s, c), PopLive(s, c).running[c].value) && SlicesLeft(PopLive(s, c), c) < 256
    decreases |s.ready[c]|
  {
    var u := s.ready[c][0];
    assert Poppable(s, u);
    var s1 := s.(ready := s.ready[c := s.ready[c][1..]]);
    assert forall i | 0 <= i < |s1.ready[c]| :: s1.ready[c][i] == s.ready[c][i + 1];
    if Ended(s.tasks[u].value) {
      var s2 := s1.(reap := s1.reap + [u]);
      if k > 0 {
        PopLiveProgress(s2, c, t, k - 1);
      } else if s2.ready[c] != [] {
        PopLiveProgress(s2, c, s2.ready[c][0], 0);
        assert s2.reap[|s2.reap| - 1] == t && s2.reap <= PopLive(s2, c).reap;
      }
    } else if k > 0 {
      assert WaitsAt(PopLive(s, c), c, t, k - 1);
    }
  }

  /** A tick of c serves the task or uses up part of its measure. */
  lemma TickProgress(s: Sched, c: nat, t: nat, m: nat)
    requires Invariant(s) && WaitsWithin(s, c, t, m) && TickOk(s, c)
    ensures Served(Tick(s, c), c, t) || (m > 0 && WaitsWithin(Tick(s, c), c, t, m - 1))
  {
    hide Places, LiveCount, PopLive;
    QueuesLive(s);
    var k: nat :| WaitsAt(s, c, t, k) && Measure(s, c, k) <= m;
    var s' := Tick(s, c);
    if s.running[c].Some? && KeepsRunning(s, c) {
      assert WaitsAt(s', c, t, k) && Measure(s', c, k) == Measure(s, c, k) - 1;
    } else {
      var s1 := if s.running[c].None? then s else PutAway(s, c);
      assert TickOk(s1, c) && WaitsAt(s1, c, t, k);
      PopLiveProgress(s1, c, t, k);
      if !Served(s', c, t) {
        var j :| 0 <= j < k && WaitsAt(s', c, t, j);
        assert SlicesLeft(s', c) < 256;
        assert Measure(s', c, j) <= m - 1;
      }
    }
  }

  /** For processor c nothing got worse: its queue only grew at the end, the same task runs,
    * and that task has no more ticks left than before. */
  ghost predicate Quiet(s: Sched, s': Sched, c: nat)
  {
    && c < |s.ready| && c < |s'.ready| && c < |s.running| && c < |s'.running|
    && s.ready[c] <= s'.ready[c] && s'.running[c] == s.running[c]
    && (s.running[c].Some? ==>
          && Poppable(s, s.running[c].value) && Poppable(s', s.running[c].value)
          && SlicesLeft(s', c) <= SlicesLeft(s, c))
  }

  lemma QuietKeepsWaiting(s: Sched, s': Sched, c: nat, t: nat, m: nat)
    requires WaitsWithin(s, c, t, m) && Quiet(s, s', c)
    ensures WaitsWithin(s', c, t, m)
  {
    var k: nat :| WaitsAt(s, c, t, k) && Measure(s, c, k) <= m;
    assert WaitsAt(s', c, t, k) && Measure(s', c, k) <= Measure(s, c, k);
  }

  lemma {:induction false} PopLiveElsewhere(s: Sched, d: nat, c: nat)
    requires TickOk(s, d) && c != d && c < |s.ready| && c < |s.running|
    ensures var s' := PopLive(s, d);
            && s'.ready[c] == s.ready[c] && s'.running[c] == s.running[c]
            && (forall r | 0 <= r < |s.tasks| && r !in s.ready[d] :: s'.tasks[r] == s.tasks[r])
    decreases |s.ready[d]|
  {
    if s.ready[d] != [] {
      var u := s.ready[d][0];
      assert Poppable(s, u);
      var s1 := s.(ready := s.ready[d := s.ready[d][1..]]);
      assert forall i | 0 <= i < |s1.ready[d]| :: s1.ready[d][i] == s.ready[d][i + 1];
      if Ended(s.tasks[u].value) {
        PopLiveElsewhere(s1.(reap := s1.reap + [u]), d, c);
        assert forall r | r in s1.ready[d] :: r in s.ready[d];
      }
    }
  }

  /** The task on c is on no other processor, in no ready queue and not waiting for the reaper. */
  lemma OnlyOn(s: Sched, c: nat)
    requires Invariant(s) && c < |s.running| && s.running[c].Some?
    ensures var r := s.running[c].value;
            && Poppable(s, r) && r !in s.reap
            && (forall d | 0 <= d < |s.ready| :: r !in s.ready[d])
            && (forall d | 0 <= d < |s.running| && d != c :: s.running[d] != Some(r))
  {
    QueuesLive(s);
    var r := s.running[c].value;
    assert Places(s, r) == 1;
    OnCpusUpdate(s.running, c, None, r);
    OccIn(s.reap, r);
    forall d | 0 <= d < |s.ready|
      ensures r !in s.ready[d]
    {
      QueuedUpdate(s.ready, d, s.ready[d], r);
      OccIn(s.ready[d], r);
    }
    forall d | 0 <= d < |s.running| && d != c
      ensures s.running[d] != Some(r)
    {
      OnCpusUpdate(s.running[c := None], d, None, r);
    }
  }

  lemma TickElsewhere(s: Sched, d: nat, c: nat)
    requires Invariant(s) && TickOk(s, d) && c != d && c < |s.ready|
    ensures Quiet(s, Tick(s, d), c)
  {
    hide Places, LiveCount, PopLive;
    if s.running[c].Some? {
      OnlyOn(s, c);
    }
    if s.running[d].None? {
      PopLiveElsewhere(s, d, c);
    } else if !KeepsRunning(s, d) {
      OnlyOn(s, d);
      PutAwayKeeps(s, d);
      PopLiveElsewhere(PutAway(s, d), d, c);
    }
  }

  /** No step but the ticks of c itself makes a task of its queue wait longer. */
  lemma OtherStepQuiet(s: Sched, a: Step, s': Sched, c: nat)
    requires Invariant(s) && Enabled(s, a) && Next(s, a, s') && c < |s.ready| && a != TickOn(c)
    ensures Quiet(s, s', c)
  {
    hide Places, LiveCount, Tick;
    QueuesLive(s);
    if s.running[c].Some? {
      OnlyOn(s, c);
    }
    match a {
      case TickOn(d) => TickElsewhere(s, d, c);
      case Reap =>
        if s.reap != [] {
          assert s.reap[0] in s.reap;
        }
      case _ =>
    }
  }

  /** Ticks of processor c among the first j steps. */
  function TicksOf(steps: seq<Step>, c: nat, j: nat): nat
    requires j <= |steps|
  {
    if j == 0 then 0 else TicksOf(steps, c, j - 1) + if steps[j - 1] == TickOn(c) then 1 else 0
  }

  /** Until the task is served, every tick of its processor has used up part of the measure. */
  lemma {:induction false} WaitingUsesTicks(states: seq<Sched>, steps: seq<Step>, c: nat, t: nat, m: nat, j: nat)
    requires IsRun(states, steps) && Invariant(states[0]) && WaitsWithin(states[0], c, t, m) && j <= |steps|
    requires forall i | 0 <= i <= j :: !Served(states[i], c, t)
    ensures TicksOf(steps, c, j) <= m && WaitsWithin(states[j], c, t, m - TicksOf(steps, c, j))
    decreases j
  {
    if j > 0 {
      WaitingUsesTicks(states, steps, c, t, m, j - 1);
      RunKeepsInvariant(states, steps, j - 1);
      var s, s' := states[j - 1], states[j];
      var left := m - TicksOf(steps, c, j - 1);
      assert !Served(s', c, t);
      if steps[j - 1] == TickOn(c) {
        TickProgress(s, c, t, left);
      } else {
        OtherStepQuiet(s, steps[j - 1], s', c);
        QuietKeepsWaiting(s, s', c, t, left);
      }
    }
  }

  /** Bounded waiting: a task with k tasks ahead of it in the queue of a processor is
    * dispatched there, or handed to the reaper if it ended, before that processor has
    * ticked (k + 1) * 256 times, whatever all the other processors and threads do. */
  lemma BoundedWaiting(states: seq<Sched>, steps: seq<Step>, c: nat, t: nat, k: nat)
    requires IsRun(states, steps) && Invariant(states[0]) && WaitsAt(states[0], c, t, k)
    requires TicksOf(steps, c, |steps|) >= (k + 1) * 256
    ensures exists j | 0 <= j <= |steps| :: Served(states[j], c, t)
  {
    QueuesLive(states[0]);
    if forall j | 0 <= j <= |steps| :: !Served(states[j], c, t) {
      var m := 256 * k + 255;
      assert WaitsAt(states[0], c, t, k) && Measure(states[0], c, k) <= m;
      WaitingUsesTicks(states, steps, c, t, m, |steps|);
    }
  }

  // ---------- From creation to a processor ----------

  /** Nothing but the entry of task t and the count differ. */
  ghost predicate Entered(s: Sched, s': Sched, t: nat)
  {
    && |s'.tasks| == |s.tasks| && s'.count == s.count + 1 && s'.reap == s.reap && s'.running == s.running
    && s'.ap == s.ap && Poppable(s', t) && !Ended(s'.tasks[t].value)
    && forall u | 0 <= u < |s.tasks| && u != t :: s'.tasks[u] == s.tasks[u]
  }

  /** A new process waits at the end of the first processor's queue. */
  lemma NewProcessQueued(s: Sched, e: nat, s': Sched)
    requires Invariant(s) && s.count < MAX_TASKS_COUNT && Next(s, NewProcess(e), s')
    ensures Entered(s, s', s.count) && s'.load == s.load && WaitsAt(s', 0, s.count, |s.ready[0]|)
    ensures s'.tasks[s.count].value.estimate == e && !s'.tasks[s.count].value.pinned
    ensures s'.tasks[s.count].value.pid % 256 == s.count && (s'.tasks[s.count].value.pid >= 0 <==> s.count < 128)
  {
  }

  /** So it is dispatched there, or reaped, within 256 ticks for every task in front of it and
    * for itself. */
  lemma NewProcessServed(states: seq<Sched>, steps: seq<Step>, e: nat)
    requires IsRun(states, steps) && Invariant(states[0]) && |steps| > 0 && steps[0] == NewProcess(e)
    requires states[0].count < MAX_TASKS_COUNT
    requires TicksOf(steps, 0, |steps|) >= (|states[0].ready[0]| + 1) * 256
    ensures exists j | 0 <= j <= |steps| :: Served(states[j], 0, states[0].count)
  {
    hide Enabled, Next, Entered, IsRun, Invariant, WaitsAt, Served;
    var states1, steps1 := FirstStepOff(states, steps);
    NewProcessQueued(states[0], e, states[1]);
    TicksShift(steps, 0, |steps1|);
    BoundedWaiting(states1, steps1, 0, states[0].count, |states[0].ready[0]|);
    var j :| 0 <= j <= |steps1| && Served(states1[j], 0, states[0].count);
    assert Served(states[j + 1], 0, states[0].count);
  }

  lemma FirstStepOff(states: seq<Sched>, steps: seq<Step>) returns (states1: seq<Sched>, steps1: seq<Step>)
    requires IsRun(states, steps) && Invariant(states[0]) && |steps| > 0
    ensures |states| == |steps| + 1 && states1 == states[1..] && steps1 == steps[1..] && IsRun(states1, steps1)
    ensures Invariant(states[1]) && Next(states[0], steps[0], states[1]) && Sized(states[0])
  {
    hide Enabled, Next;
    RunKeepsInvariant(states, steps, 1);
    states1, steps1 := states[1..], steps[1..];
    assert forall i | 0 <= i < |steps1| :: steps1[i] == steps[i + 1] && states1[i] == states[i + 1];
  }

  /** Leaving out a first step that is no tick. */
  lemma {:induction false} TicksShift(steps: seq<Step>, c: nat, j: nat)
    requires j < |steps| && steps[0] != TickOn(c)
    ensures TicksOf(steps[1..], c, j) == TicksOf(steps, c, j + 1)
    decreases j
  {
    if j > 0 {
      TicksShift(steps, c, j - 1);
    }
  }

  /** Task t is at position k of the load queue. */
  predicate LoadsAt(s: Sched, t: nat, k: nat)
  {
    k < |s.load| && s.load[k] == t
  }

  /** The loader itself waits at the end of the first processor's queue, every other new
    * thread at the end of the load queue. */
  lemma NewThreadQueued(s: Sched, f: Entry, p: int, e: nat, s': Sched)
    requires Invariant(s) && s.count < MAX_TASKS_COUNT && Next(s, NewThread(f, p, e), s')
    ensures Entered(s, s', s.count)
    ensures var x := s'.tasks[s.count].value;
            x.pid == p && x.estimate == e && (x.pinned <==> f == Loader || f == Reaper)
    ensures f == Loader ==> s'.load == s.load && WaitsAt(s', 0, s.count, |s.ready[0]|)
    ensures f != Loader ==> s'.ready == s.ready && s'.load == s.load + [s.count] && LoadsAt(s', s.count, |s.load|)
  {
  }

  lemma {:induction false} PopLiveLoad(s: Sched, c: nat)
    requires TickOk(s, c)
    ensures PopLive(s, c).load == s.load
    decreases |s.ready[c]|
  {
    if s.ready[c] != [] && HasEnded(s.tasks, s.ready[c][0]) {
      DropEnded(s, c);
      PopLiveLoad(s.(ready := s.ready[c := s.ready[c][1..]], reap := s.reap + [s.ready[c][0]]), c);
    }
  }

  lemma TickLoad(s: Sched, c: nat)
    requires Invariant(s) && c < |s.ready|
    ensures TickOk(s, c) && Tick(s, c).load == s.load
  {
    hide Places, LiveCount, PopLive;
    QueuesLive(s);
    if s.running[c].None? {
      PopLiveLoad(s, c);
    } else if !KeepsRunning(s, c) {
      PutAwayKeeps(s, c);
      PopLiveLoad(PutAway(s, c), c);
    }
  }

  /** Only the loader takes from the load queue, and from its front. */
  lemma LoadQueueMoves(s: Sched, a: Step, s': Sched, t: nat, k: nat)
    requires Invariant(s) && Enabled(s, a) && Next(s, a, s') && LoadsAt(s, t, k)
    ensures a != Load ==> LoadsAt(s', t, k)
    ensures a == Load && k > 0 ==> LoadsAt(s', t, k - 1)
    ensures a == Load && k == 0 ==> Live(s, t) && Loaded(s, t, s')
  {
    hide Places, LiveCount, Tick;
    QueuesLive(s);
    match a {
      case TickOn(c) => TickLoad(s, c);
      case _ =>
    }
  }

  /** Task t has gone to the end of a queue: the first processor's for loader and reaper, the
    * next one's in turn for every other thread. */
  predicate Loaded(s: Sched, t: nat, s': Sched)
  {
    && Live(s, t)
    && var c := if s.tasks[t].value.pinned then 0 else s.ap;
       && c < |s.ready| && WaitsAt(s', c, t, |s.ready[c]|) && (s.tasks[t].value.pinned <==> c == 0)
       && s'.ap == (if c == 0 then s.ap else if s.ap + 1 == |s.ready| then 1 else s.ap + 1)
  }

  /** Rounds of the loader among the first j steps. */
  function LoadsOf(steps: seq<Step>, j: nat): nat
    requires j <= |steps|
  {
    if j == 0 then 0 else LoadsOf(steps, j - 1) + if steps[j - 1] == Load then 1 else 0
  }

  lemma {:induction false} LoadsMoveUp(states: seq<Sched>, steps: seq<Step>, t: nat, k: nat, j: nat)
    requires IsRun(states, steps) && Invariant(states[0]) && LoadsAt(states[0], t, k) && j <= |steps|
    requires LoadsOf(steps, j) <= k
    ensures LoadsAt(states[j], t, k - LoadsOf(steps, j))
    decreases j
  {
    hide Enabled, Next;
    if j > 0 {
      LoadsMoveUp(states, steps, t, k, j - 1);
      RunKeepsInvariant(states, steps, j - 1);
      LoadQueueMoves(states[j - 1], steps[j - 1], states[j], t, k - LoadsOf(steps, j - 1));
    }
  }

  /** A thread with k others in front of it in the load queue is put on a processor's queue by
    * the loader's round k + 1, whatever else happens meanwhile. */
  lemma ThreadIsLoaded(states: seq<Sched>, steps: seq<Step>, t: nat, k: nat, j: nat)
    requires IsRun(states, steps) && Invariant(states[0]) && LoadsAt(states[0], t, k) && j < |steps|
    requires LoadsOf(steps, j) == k && steps[j] == Load
    ensures Loaded(states[j], t, states[j + 1])
  {
    hide Enabled, Next;
    LoadsMoveUp(states, steps, t, k, j);
    RunKeepsInvariant(states, steps, j);
    LoadQueueMoves(states[j], steps[j], states[j + 1], t, 0);
  }

  // ---------- The time slice ----------

  /** Task t runs on c, has not ended, and has n slices left. */
  predicate RunsWith(s: Sched, c: nat, t: nat, n: nat)
  {
    && c < |s.running| && s.running[c] == Some(t) && Poppable(s, t) && !Ended(s.tasks[t].value)
    && s.tasks[t].value.tcb.value.slices == n
  }

  /** The task on c yields, or the step ends it. */
  predicate Disturbs(a: Step, c: nat, t: nat)
  {
    a == YieldOn(c) || a == EndThread(t) || a == EndOn(c)
  }

  /** A step that is no tick of c and does not disturb t leaves it running as it was. */
  lemma OtherStepLeaves(s: Sched, a: Step, s': Sched, c: nat, t: nat, n: nat)
    requires Invariant(s) && Enabled(s, a) && Next(s, a, s') && RunsWith(s, c, t, n)
    requires a != TickOn(c) && !Disturbs(a, c, t)
    ensures RunsWith(s', c, t, n)
  {
    hide Places, LiveCount, Tick;
    QueuesLive(s);
    OnlyOn(s, c);
    match a {
      case TickOn(d) => TickLeaves(s, d, c, t);
      case Reap =>
        if s.reap != [] {
          assert s.reap[0] in s.reap;
        }
      case _ =>
    }
  }

  lemma TickLeaves(s: Sched, d: nat, c: nat, t: nat)
    requires Invariant(s) && TickOk(s, d) && c != d && c < |s.ready| && s.running[c] == Some(t)
    ensures c < |Tick(s, d).running| && Tick(s, d).running[c] == Some(t)
    ensures t < |s.tasks| == |Tick(s, d).tasks| && Tick(s, d).tasks[t] == s.tasks[t]
  {
    hide Places, LiveCount, PopLive;
    OnlyOn(s, c);
    if s.running[d].None? {
      PopLiveElsewhere(s, d, c);
    } else if !KeepsRunning(s, d) {
      OnlyOn(s, d);
      PutAwayKeeps(s, d);
      PopLiveElsewhere(PutAway(s, d), d, c);
    }
  }

  /** A task keeps its processor for the slices it was given: after j steps with at most n
    * ticks of its processor it still runs, with one slice less for every tick. */
  lemma {:induction false} SliceHolds(states: seq<Sched>, steps: seq<Step>, c: nat, t: nat, n: nat, j: nat)
    requires IsRun(states, steps) && Invariant(states[0]) && RunsWith(states[0], c, t, n) && j <= |steps|
    requires (forall i | 0 <= i < j :: !Disturbs(steps[i], c, t)) && TicksOf(steps, c, j) <= n
    ensures RunsWith(states[j], c, t, n - TicksOf(steps, c, j))
    decreases j
  {
    hide Enabled, Next;
    if j > 0 {
      SliceHolds(states, steps, c, t, n, j - 1);
      RunKeepsInvariant(states, steps, j - 1);
      var left := n - TicksOf(steps, c, j - 1);
      if steps[j - 1] == TickOn(c) {
        CountsDown(states[j - 1], c, t, left, states[j]);
      } else {
        OtherStepLeaves(states[j - 1], steps[j - 1], states[j], c, t, left);
      }
    }
  }

  lemma CountsDown(s: Sched, c: nat, t: nat, n: nat, s': Sched)
    requires Sized(s) && Next(s, TickOn(c), s') && RunsWith(s, c, t, n) && n > 0
    ensures RunsWith(s', c, t, n - 1)
  {
    hide PopLive;
  }

  /** Task t has been put at the end of the queue of c, and the queue is served in order. */
  ghost predicate Requeued(s: Sched, c: nat, t: nat, s': Sched)
    requires c < |s.ready|
  {
    var q := s.ready[c] + [t];
    var k := EndedAhead(s.tasks, q);
    && k < |q| && c < |s'.ready| && c < |s'.running|
    && s'.running[c] == Some(q[k]) && s'.ready[c] == q[k + 1..] && s'.reap == s.reap + q[..k]
  }

  lemma SliceUsed(s: Sched, c: nat, t: nat, s': Sched)
    requires Invariant(s) && Next(s, TickOn(c), s') && RunsWith(s, c, t, 0)
    ensures c < |s.ready| && Requeued(s, c, t, s')
  {
    hide Places, LiveCount, PopLive;
    PutAwayKeeps(s, c);
    PopLiveOrder(PutAway(s, c), c);
    var q := s.ready[c] + [t];
    var k := EndedAhead(s.tasks, q);
    assert PutAway(s, c).ready[c] == q;
    assert !HasEnded(s.tasks, q[|q| - 1]);
  }

  /** The whole slice: a task with n slices that neither ends nor yields runs through the next
    * n ticks of its processor, and the tick after them, not an earlier one, puts it at the
    * end of the queue. */
  lemma FullSlice(states: seq<Sched>, steps: seq<Step>, c: nat, t: nat, n: nat, j: nat)
    requires IsRun(states, steps) && Invariant(states[0]) && RunsWith(states[0], c, t, n) && j < |steps|
    requires forall i | 0 <= i < j :: !Disturbs(steps[i], c, t)
    requires TicksOf(steps, c, j) == n && steps[j] == TickOn(c)
    ensures forall i | 0 <= i <= j :: TicksOf(steps, c, i) <= n && RunsWith(states[i], c, t, n - TicksOf(steps, c, i))
    ensures c < |states[j].ready| && Requeued(states[j], c, t, states[j + 1])
  {
    hide Enabled, Next, Requeued;
    forall i | 0 <= i <= j
      ensures TicksOf(steps, c, i) <= n && RunsWith(states[i], c, t, n - TicksOf(steps, c, i))
    {
      TicksGrow(steps, c, i, j);
      SliceHolds(states, steps, c, t, n, i);
    }
    RunKeepsInvariant(states, steps, j);
    SliceUsed(states[j], c, t, states[j + 1]);
  }

  lemma {:induction false} TicksGrow(steps: seq<Step>, c: nat, i: nat, j: nat)
    requires i <= j <= |steps|
    ensures TicksOf(steps, c, i) <= TicksOf(steps, c, j)
    decreases j
  {
    if i < j {
      TicksGrow(steps, c, i, j - 1);
    }
  }

  /** Yielding gives up all slices at once: the next tick puts the task at the end. */
  lemma YieldGivesUp(s: Sched, c: nat, t: nat, n: nat, s': Sched)
    requires Invariant(s) && RunsWith(s, c, t, n) && Next(s, YieldOn(c), s')
    ensures RunsWith(s', c, t, 0) && s' == s.(tasks := s'.tasks)
    ensures forall u | 0 <= u < |s.tasks| && u != t :: u < |s'.tasks| && s'.tasks[u] == s.tasks[u]
  {
  }

  // ---------- The first state ----------

  function Boot(cpus: nat): Sched
  {
    Sched(seq(MAX_TASKS_COUNT, _ => None), 0, [], [], seq(cpus, _ => []), seq(cpus, _ => None), 1)
  }

  lemma {:induction false} NothingLive(tasks: seq<Option<Task>>)
    requires forall i | 0 <= i < |tasks| :: tasks[i] == None
    ensures LiveCount(tasks) == 0
  {
    if tasks != [] {
      NothingLive(tasks[1..]);
    }
  }

  lemma {:induction false} NothingQueued(qs: seq<seq<nat>>, rs: seq<Option<nat>>, t: nat)
    requires |qs| == |rs| && forall i | 0 <= i < |qs| :: qs[i] == [] && rs[i] == None
    ensures Queued(qs, t) == 0 && OnCpus(rs, t) == 0
  {
    if qs != [] {
      NothingQueued(qs[1..], rs[1..], t);
    }
  }

  /** Runs start in a state that satisfies the invariant. */
  lemma BootInvariant(cpus: nat)
    requires cpus >= 2
    ensures Invariant(Boot(cpus))
  {
    var s := Boot(cpus);
    NothingLive(s.tasks);
    forall t: nat
      ensures Places(s, t) == 0
    {
      NothingQueued(s.ready, s.running, t);
    }
  }

  lemma TickDropsEnded(s: Sched, c: nat, t: nat)
    requires c < |s.ready| == |s.running| && s.running[c] == None && s.ready[c] == [t]
    requires Poppable(s, t) && Ended(s.tasks[t].value)
    ensures TickOk(s, c) && Tick(s, c) == s.(ready := s.ready[c := []], reap := s.reap + [t])
  {
    var s1 := s.(ready := s.ready[c := s.ready[c][1..]], reap := s.reap + [t]);
    assert s.ready[c][1..] == [];
    assert s1.running[c := None] == s1.running;
    assert PopLive(s, c) == PopLive(s1, c) == s1;
  }

  /** Two threads are created, the first one is loaded and marked. */
  lemma TwoThreads() returns (s1: Sched, s2: Sched, s3: Sched, s4: Sched)
    ensures s1 == CreateThread(Boot(2), UserCode, 0, 1)
    ensures Sized(s1) && s1.count == 1 && !Live(s1, 1) && s2 == CreateThread(s1, UserCode, 0, 1)
    ensures Sized(s2) && s2.load == [0, 1] && s3 == LoadOne(s2) && Sized(s3) && Poppable(s3, 0) && s4 == EndChild(s3, 0)
    ensures Sized(s4) && |s4.ready| == 2 && s4.ready[1] == [0] && s4.running[1] == None && s4.reap == []
    ensures s4.count == 2 && Poppable(s4, 0) && Ended(s4.tasks[0].value) && Live(s4, 1)
  {
    s1 := CreateThread(Boot(2), UserCode, 0, 1);
    s2 := CreateThread(s1, UserCode, 0, 1);
    s3 := LoadOne(s2);
    assert s2.ready[1] + [0] == [0];
    s4 := EndChild(s3, 0);
  }

  /** The free-slot condition is not idle: two threads, the first ends and is reaped, and the
    * next task would be entered over the second. */
  lemma SlotClashIsReachable() returns (states: seq<Sched>, steps: seq<Step>)
    ensures IsRun(states, steps) && states[0] == Boot(2) && Live(states[|steps|], states[|steps|].count)
  {
    hide Tick;
    var s1, s2, s3, s4 := TwoThreads();
    TickDropsEnded(s4, 1, 0);
    var s5 := Tick(s4, 1);
    var s6 := ReapOne(s5);
    states := [Boot(2), s1, s2, s3, s4, s5, s6];
    steps := [NewThread(UserCode, 0, 1), NewThread(UserCode, 0, 1), Load, EndThread(0), TickOn(1), Reap];
  }

  // ---------- The task manager object ----------

  class TaskMgr {
    const tasks: array<Option<Task>>
    var tasksCount: nat
    var tasksToLoad: seq<nat>
    var tasksToReap: seq<nat>
    var threadsQue: seq<seq<nat>>
    var running: seq<Option<nat>>
    var ap: nat

    constructor (activeCPUs: nat)
      requires activeCPUs >= 2
      ensures fresh(tasks) && State() == Boot(activeCPUs)
    {
      tasks := new Option<Task>[MAX_TASKS_COUNT](_ => None);
      tasksCount, tasksToLoad, tasksToReap, ap := 0, [], [], 1;
      threadsQue := seq(activeCPUs, _ => []);
      running := seq(activeCPUs, _ => None);
    }

    ghost function State(): Sched
      reads this, tasks
    {
      Sched(tasks[..], tasksCount, tasksToLoad, tasksToReap, threadsQue, running, ap)
    }

    /** `createTask` for a process, from line 262 on. */
    method NewProcess(estimate: nat) returns (tid: int)
      requires Invariant(State())
      modifies this, tasks
      ensures old(tasksCount) <= MAX_TASKS_COUNT && State() == CreateProcess(old(State()), estimate)
      ensures tid == if old(tasksCount) == MAX_TASKS_COUNT then -1 else old(tasksCount)
    {
      LiveCountBound(tasks[..]);
      if tasksCount == MAX_TASKS_COUNT {
        return -1;
      }
      tid := tasksCount;
      tasks[tasksCount] := Some(NewTask(Int8(tasksCount), estimate, false));
      threadsQue := threadsQue[0 := threadsQue[0] + [tasksCount]];
      tasksCount := tasksCount + 1;
    }

    /** `createTask` for a thread, from line 412 on. */
    method NewThread(func: Entry, pid: int, estimate: nat) returns (tid: nat)
      requires Invariant(State())
      modifies this, tasks
      ensures old(tasksCount) <= MAX_TASKS_COUNT && State() == CreateThread(old(State()), func, pid, estimate)
      ensures tid == if old(tasksCount) == MAX_TASKS_COUNT then 0 else old(tasksCount)
    {
      LiveCountBound(tasks[..]);
      if tasksCount == MAX_TASKS_COUNT {
        return 0;
      }
      tid := tasksCount;
      tasks[tid] := Some(NewTask(pid, estimate, func != UserCode));
      tasksCount := tasksCount + 1;
      if func == Loader {
        threadsQue := threadsQue[0 := threadsQue[0] + [tid]];
      } else {
        tasksToLoad := tasksToLoad + [tid];
      }
    }

    /** One round of `loader`. */
    method LoaderRound()
      requires Sized(State()) && forall i | 0 <= i < |tasksToLoad| :: tasksToLoad[i] < tasks.Length
      modifies this
      ensures State() == LoadOne(old(State()))
    {
      if tasksToLoad != [] {
        var newTid := tasksToLoad[0];
        tasksToLoad := tasksToLoad[1..];
        if tasks[newTid] != None {
          if !tasks[newTid].value.pinned {
            threadsQue := threadsQue[ap := threadsQue[ap] + [newTid]];
            ap := ap + 1;
            if ap == |threadsQue| {
              ap := 1;
            }
          } else {
            threadsQue := threadsQue[0 := threadsQue[0] + [newTid]];
          }
        }
      }
    }

    /** One round of `reaper`; `tasksCount` is a `uint8_t`. */
    method ReaperRound()
      requires forall i | 0 <= i < |tasksToReap| :: tasksToReap[i] < tasks.Length
      modifies this, tasks
      ensures State() == ReapOne(old(State()))
    {
      if tasksToReap != [] {
        var deadTid := tasksToReap[0];
        tasksToReap := tasksToReap[1..];
        if tasks[deadTid] != None {
          tasks[deadTid] := None;
          tasksCount := if tasksCount == 0 then 255 else tasksCount - 1;
        }
      }
    }

    /** `schedule` on processor id. Returns the task to switch to, if any; a processor whose
      * queue is empty is left waiting. */
    method Schedule(id: nat) returns (next: Option<nat>)
      requires TickOk(State(), id)
      modifies this, tasks
      ensures State() == Tick(old(State()), id)
      ensures next == if old(KeepsRunning(State(), id)) then None else running[id]
    {
      ghost var s := State();
      if running[id] != None {
        var oldTid := running[id].value;
        var oldTask := tasks[oldTid].value;
        if oldTask.tcb != None {
          if oldTask.ended || oldTask.tcb.value.ended {
            tasksToReap := tasksToReap + [oldTid];
          } else {
            if oldTask.tcb.value.slices > 0 {
              tasks[oldTid] := Some(oldTask.(tcb := Some(oldTask.tcb.value.(slices := oldTask.tcb.value.slices - 1))));
              return None;
            }
            threadsQue := threadsQue[id := threadsQue[id] + [oldTid]];
          }
        }
        running := running[id := None];
        assert State() == PutAway(s, id);
      }
      next := PopNext(id, if s.running[id].None? then s else PutAway(s, id));
    }

    /** The pop loop. */
    method PopNext(id: nat, ghost s: Sched) returns (next: Option<nat>)
      requires State() == s && TickOk(s, id) && running[id] == None
      modifies this, tasks
      ensures State() == PopLive(s, id) && next == running[id]
    {
      while threadsQue[id] != []
        invariant id < |threadsQue| && id < |running| && running[id] == None
        invariant TickOk(State(), id) && PopLive(State(), id) == PopLive(s, id)
        decreases |threadsQue[id]|
      {
        var tid := threadsQue[id][0];
        assert Poppable(State(), tid);
        ghost var s0 := State();
        threadsQue := threadsQue[id := threadsQue[id][1..]];
        var task := tasks[tid].value;
        if Ended(task) {
          tasksToReap := tasksToReap + [tid];
          assert forall i | 0 <= i < |threadsQue[id]| :: threadsQue[id][i] == s0.ready[id][i + 1];
        } else {
          tasks[tid] := Some(task.(tcb := Some(task.tcb.value.(slices := task.estimate * TIME_SLICE % 256))));
          running := running[id := Some(tid)];
          return running[id];
        }
      }
      next := None;
      assert running[id := None] == running;
    }

    /** `endTask(pid)`: visits the numbers 0 to `tasksCount`, and marks the threads of pid. */
    method EndChildren(pid: int)
      requires HeadersOk(State()) && tasksCount < tasks.Length
      modifies tasks
      ensures State() == MarkBelow(old(State()), pid, tasksCount + 1)
    {
      ghost var s := State();
      var initialTasksCount := tasksCount;
      for i := 0 to initialTasksCount + 1
        invariant State() == MarkBelow(s, pid, i)
      {
        if tasks[i] != None && tasks[i].value.pid == pid && i != pid {
          tasks[i] := Some(tasks[i].value.(ended := true, tcb := Some(Tcb(true, 0))));
        }
      }
    }

    /** `endTask()` by the task on processor id. */
    method EndTask(id: nat)
      requires HeadersOk(State()) && tasksCount < tasks.Length
      requires id < |running| && running[id].Some? && Poppable(State(), running[id].value)
      modifies tasks
      ensures State() == EndCall(old(State()), id)
    {
      var tid := running[id].value;
      if tid == tasks[tid].value.pid {
        EndChildren(tasks[tid].value.pid);
      }
      var task := tasks[tid].value;
      if task.tcb.value.ended {
        tasks[tid] := Some(task.(ended := true, tcb := None));
      } else {
        tasks[tid] := Some(task.(ended := true, tcb := Some(Tcb(true, 0))));
      }
    }

    /** True once the task is gone. */
    method TaskReady(tid: nat) returns (gone: bool)
      requires tid < tasks.Length
      ensures gone <==> !Live(State(), tid)
    {
      gone := tasks[tid] == None;
    }
  }
}
