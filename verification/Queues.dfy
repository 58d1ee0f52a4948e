/** The linked FIFO queue of src/kernel/libk/includes/kdsa.hpp. */
module Queues {
  import opened Options

  class Node<T> {
    var next: Node?<T>
    var data: T

    constructor (data: T)
      ensures this.data == data && next == null
    {
      this.data := data;
      next := null;
    }
  }

  class Queue<T> {
    var head: Node?<T>
    var last: Node?<T>
    var size: nat
    ghost var nodes: seq<Node<T>>

    /** The chain from head. When it is empty `last` may be anything: popping the last
      * element does not reset it. */
    ghost predicate Valid()
      reads this, nodes
    {
      && size == |nodes|
      && (nodes == [] ==> head == null)
      && (nodes != [] ==> head == nodes[0] && last == nodes[|nodes| - 1] && nodes[|nodes| - 1].next == null)
      && (forall i | 0 <= i < |nodes| - 1 :: nodes[i].next == nodes[i + 1])
      && (forall i, j | 0 <= i < j < |nodes| :: nodes[i] != nodes[j])
    }

    ghost function Contents(): (s: seq<T>)
      reads this, nodes
      ensures |s| == |nodes|
    {
      seq(|nodes|, i requires 0 <= i < |nodes| reads this, nodes => nodes[i].data)
    }

    constructor ()
      ensures Valid() && Contents() == [] && nodes == []
    {
      head, last, size := null, null, 0;
      nodes := [];
    }

    method IsEmpty() returns (empty: bool)
      requires Valid()
      ensures empty <==> Contents() == []
    {
      empty := size == 0 || head == null || last == null;
    }

    method Push(data: T)
      requires Valid()
      modifies this, nodes
      ensures Valid() && Contents() == old(Contents()) + [data]
      ensures |nodes| == |old(nodes)| + 1 && nodes[..|old(nodes)|] == old(nodes) && fresh(nodes[|old(nodes)|])
    {
      var n := new Node(data);
      if head == null {
        head := n;
        last := n;
      } else if last == head {
        last := n;
        head.next := n;
      } else {
        last.next := n;
        last := n;
      }
      nodes := nodes + [n];
      size := size + 1;
    }

    method Pop() returns (it: Option<T>)
      requires Valid()
      modifies this
      ensures Valid() && nodes == if old(nodes) == [] then [] else old(nodes)[1..]
      ensures old(Contents()) == [] ==> it == None && Contents() == []
      ensures old(Contents()) != [] ==> it == Some(old(Contents())[0]) && Contents() == old(Contents())[1..]
    {
      if size == 0 {
        return None;
      }
      it := Some(head.data);
      head := head.next;
      nodes := nodes[1..];
      size := size - 1;
    }
  }

  // ---------- Histories ----------

  datatype Call<T> = PushCall(data: T) | PopCall

  /** A history on a mathematical queue: what is left, and what each pop returned. */
  function Fifo<T>(calls: seq<Call<T>>): (r: (seq<T>, seq<Option<T>>))
  {
    if calls == [] then ([], [])
    else
      var (q, out) := Fifo(calls[..|calls| - 1]);
      match calls[|calls| - 1]
      case PushCall(x) => (q + [x], out)
      case PopCall => if q == [] then (q, out + [None]) else (q[1..], out + [Some(q[0])])
  }

  function Pushed<T>(calls: seq<Call<T>>): seq<T>
  {
    if calls == [] then []
    else Pushed(calls[..|calls| - 1]) + (match calls[|calls| - 1] case PushCall(x) => [x] case PopCall => [])
  }

  function Values<T>(out: seq<Option<T>>): seq<T>
  {
    if out == [] then []
    else Values(out[..|out| - 1]) + (match out[|out| - 1] case Some(x) => [x] case None => [])
  }

  /** Nothing is lost, duplicated or reordered: what came out followed by what is left is what
    * went in. */
  lemma {:induction false} FifoConserves<T>(calls: seq<Call<T>>)
    ensures Values(Fifo(calls).1) + Fifo(calls).0 == Pushed(calls)
  {
    if calls != [] {
      var front := calls[..|calls| - 1];
      FifoConserves(front);
      var (q, out) := Fifo(front);
      match calls[|calls| - 1]
      case PushCall(x) =>
        assert Values(out) + (q + [x]) == (Values(out) + q) + [x];
      case PopCall =>
        var r := if q == [] then None else Some(q[0]);
        assert (out + [r])[..|out|] == out;
        if q != [] {
          assert q == [q[0]] + q[1..];
          assert (Values(out) + [q[0]]) + q[1..] == Values(out) + q;
        }
    }
  }

  /** The linked queue answers every history of pushes and pops as the mathematical one does,
    * however often it runs empty in between. */
  method Replay<T>(calls: seq<Call<T>>) returns (out: seq<Option<T>>, size: nat)
    ensures out == Fifo(calls).1 && size == |Fifo(calls).0|
  {
    var q := new Queue<T>();
    out := [];
    for i := 0 to |calls|
      invariant fresh(q) && (forall j | 0 <= j < |q.nodes| :: fresh(q.nodes[j])) && q.Valid()
      invariant q.Contents() == Fifo(calls[..i]).0 && out == Fifo(calls[..i]).1
    {
      assert calls[..i + 1][..i] == calls[..i];
      match calls[i] {
        case PushCall(x) =>
          ghost var before := q.nodes;
          q.Push(x);
          assert forall j | 0 <= j < |before| :: q.nodes[j] == before[j];
        case PopCall =>
          var it := q.Pop();
          out := out + [it];
      }
    }
    assert calls[..|calls|] == calls;
    size := q.size;
  }
}
