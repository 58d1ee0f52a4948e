/** The spin lock of src/kernel/preKernel.asm, for any number of processors. */
module Locks {

  /** Where a processor is: outside, before `lock bts`, in the spin loop, or between the
    * return of `acquireLock` and the store of `releaseLock`. */
  datatype Pc = Outside | AtBts | Spinning | Holding

  datatype State = State(word: bv32, pcs: seq<Pc>)

  datatype Action = CallAcquire | BitTestAndSet | TestAgain | Release

  predicate Locked(s: State)
  {
    s.word & 1 != 0
  }

  /** The processor is where the instruction is; only the holder releases. */
  predicate Enabled(s: State, c: nat, a: Action)
  {
    && c < |s.pcs|
    && match a
       case CallAcquire => s.pcs[c] == Outside
       case BitTestAndSet => s.pcs[c] == AtBts
       case TestAgain => s.pcs[c] == Spinning
       case Release => s.pcs[c] == Holding
  }

  function Move(s: State, c: nat, pc: Pc): State
    requires c < |s.pcs|
  {
    s.(pcs := s.pcs[c := pc])
  }

  /** One instruction of processor c. */
  function Step(s: State, c: nat, a: Action): (s': State)
    requires c < |s.pcs|
    ensures |s'.pcs| == |s.pcs|
  {
    match a
    case CallAcquire => Move(s, c, AtBts)
    case BitTestAndSet => Move(s.(word := s.word | 1), c, if Locked(s) then Spinning else Holding)
    case TestAgain => if Locked(s) then s else Move(s, c, AtBts)
    case Release => Move(s.(word := 0), c, Outside)
  }

  function Holders(pcs: seq<Pc>): nat
  {
    if pcs == [] then 0 else (if pcs[0] == Holding then 1 else 0) + Holders(pcs[1..])
  }

  /** The lock bit is set exactly while one processor holds the lock. */
  predicate Invariant(s: State)
  {
    Holders(s.pcs) == if Locked(s) then 1 else 0
  }

  lemma {:induction false} HoldersUpdate(pcs: seq<Pc>, c: nat, pc: Pc)
    requires c < |pcs|
    ensures Holders(pcs[c := pc]) ==
            Holders(pcs) - (if pcs[c] == Holding then 1 else 0) + (if pc == Holding then 1 else 0)
    ensures pcs[c] == Holding ==> Holders(pcs) >= 1
    decreases c
  {
    if c == 0 {
      assert pcs[c := pc][1..] == pcs[1..];
    } else {
      assert pcs[c := pc][1..] == pcs[1..][c - 1 := pc];
      HoldersUpdate(pcs[1..], c - 1, pc);
    }
  }

  lemma BitSet(w: bv32)
    ensures (w | 1) & 1 != 0 && (0 as bv32) & 1 == 0
  {
  }

  lemma StepKeeps(s: State, c: nat, a: Action)
    requires Invariant(s) && Enabled(s, c, a)
    ensures Invariant(Step(s, c, a))
  {
    BitSet(s.word);
    HoldersUpdate(s.pcs, c, Step(s, c, a).pcs[c]);
  }

  ghost predicate IsRun(states: seq<State>, cpus: seq<nat>, actions: seq<Action>)
  {
    && |states| == |actions| + 1 && |cpus| == |actions|
    && forall i | 0 <= i < |actions| ::
         Enabled(states[i], cpus[i], actions[i]) && states[i + 1] == Step(states[i], cpus[i], actions[i])
  }

  lemma {:induction false} TwoHolders(pcs: seq<Pc>, a: nat, b: nat)
    requires a < b < |pcs| && pcs[a] == Holding && pcs[b] == Holding
    ensures Holders(pcs) >= 2
  {
    HoldersUpdate(pcs, a, Outside);
    HoldersUpdate(pcs[a := Outside], b, Outside);
  }

  /** Mutual exclusion on every interleaving: never two holders, and the bit says whether
    * there is one. */
  lemma {:induction false} MutualExclusion(states: seq<State>, cpus: seq<nat>, actions: seq<Action>, j: nat)
    requires IsRun(states, cpus, actions) && Invariant(states[0]) && j <= |actions|
    ensures Invariant(states[j])
    ensures forall a, b | 0 <= a < b < |states[j].pcs| :: !(states[j].pcs[a] == Holding && states[j].pcs[b] == Holding)
    decreases j
  {
    if j > 0 {
      MutualExclusion(states, cpus, actions, j - 1);
      StepKeeps(states[j - 1], cpus[j - 1], actions[j - 1]);
    }
    forall a, b | 0 <= a < b < |states[j].pcs|
      ensures !(states[j].pcs[a] == Holding && states[j].pcs[b] == Holding)
    {
      if states[j].pcs[a] == Holding && states[j].pcs[b] == Holding {
        TwoHolders(states[j].pcs, a, b);
      }
    }
  }

  /** `releaseLock` does not check its caller: it keeps the invariant exactly when the caller
    * holds the lock or nobody does. */
  lemma ReleaseKeepsIff(s: State, c: nat)
    requires Invariant(s) && c < |s.pcs|
    ensures Invariant(Step(s, c, Release)) <==> s.pcs[c] == Holding || !Locked(s)
  {
    BitSet(s.word);
    HoldersUpdate(s.pcs, c, Outside);
  }

  /** A release frees the lock, whoever calls it. */
  lemma ReleaseFrees(s: State, c: nat)
    requires c < |s.pcs|
    ensures !Locked(Step(s, c, Release)) && Step(s, c, Release).pcs[c] == Outside
  {
    BitSet(s.word);
  }

  /** On a free lock a processor that calls, or that has been spinning, holds the lock after
    * its next two instructions; on a taken one it spins, and spinning changes nothing. */
  lemma FreeLockIsTaken(s: State, c: nat, s1: State)
    requires c < |s.pcs| && (s1 == Step(s, c, CallAcquire) || s1 == Step(s, c, TestAgain))
    ensures !Locked(s) ==> s1.pcs[c] == AtBts && Step(s1, c, BitTestAndSet).pcs[c] == Holding
    ensures Locked(s) && s1.pcs[c] == AtBts ==> Step(s1, c, BitTestAndSet).pcs[c] == Spinning
    ensures Locked(s) ==> Step(s, c, TestAgain) == s
    ensures Locked(Step(s1, c, BitTestAndSet))
  {
    BitSet(s.word);
    BitSet(s1.word);
  }
}
