/** Parsing a path into a doubly linked list (src/kernel/filesystem/pathParser.cpp). */
module Paths {
  import opened Options
  import opened Strings

  const FILESYSTEM_DIR_MAX_SIZE := 8
  const SLASH: seq<Byte> := [47]

  function Take(s: seq<Byte>, n: nat): seq<Byte>
  {
    if |s| <= n then s else s[..n]
  }

  /** `strncpy`: at most n bytes and never the terminator. */
  method Strncpy(mem: array<Byte>, p: nat, n: nat) returns (dst: seq<Byte>)
    requires p < mem.Length && exists k | p <= k < mem.Length :: mem[k] == 0
    ensures dst == Take(CStr(mem[..], p), n)
  {
    dst := [];
    var length := 0;
    while length < n && mem[p + length] != 0
      invariant p + length < mem.Length && exists k | p + length <= k < mem.Length :: mem[k] == 0
      invariant length == |dst| <= n && CStr(mem[..], p) == dst + CStr(mem[..], p + length)
      decreases n - length
    {
      assert CStr(mem[..], p + length) == [mem[p + length]] + CStr(mem[..], p + length + 1);
      dst := dst + [mem[p + length]];
      length := length + 1;
    }
    assert length < n ==> CStr(mem[..], p + length) == [];
  }

  class ParsedPath {
    var currDir: seq<Byte>
    var nextDir: ParsedPath?
    var prevDir: ParsedPath?

    constructor ()
      ensures currDir == [] && nextDir == null && prevDir == null
    {
      currDir, nextDir, prevDir := [], null, null;
    }
  }

  /** Node i is linked to its neighbours. */
  ghost predicate LinkAt(nodes: seq<ParsedPath>, i: nat)
    requires i < |nodes|
    reads nodes
  {
    && nodes[i].nextDir == (if i + 1 < |nodes| then nodes[i + 1] else null)
    && nodes[i].prevDir == (if i > 0 then nodes[i - 1] else null)
  }

  /** The nodes are linked in both directions, in this order. */
  ghost predicate Linked(nodes: seq<ParsedPath>)
    reads nodes
  {
    forall i | 0 <= i < |nodes| :: LinkAt(nodes, i)
  }

  ghost predicate Holds(nodes: seq<ParsedPath>, parts: seq<seq<Byte>>)
    reads nodes
  {
    |nodes| <= |parts| && forall i | 0 <= i < |nodes| :: nodes[i].currDir == Take(parts[i], 8)
  }

  ghost predicate Distinct(nodes: seq<ParsedPath>)
  {
    forall i, j | 0 <= i < j < |nodes| :: nodes[i] != nodes[j]
  }

  /** Lines 39-41: hang a new node behind the last one. */
  method Append(pathScout: ParsedPath, ghost nodes: seq<ParsedPath>, ghost parts: seq<seq<Byte>>)
    returns (n: ParsedPath)
    requires nodes != [] && pathScout == nodes[|nodes| - 1] && Distinct(nodes) && Linked(nodes) && Holds(nodes, parts)
    modifies pathScout
    ensures fresh(n) && Distinct(nodes + [n]) && Linked(nodes + [n]) && Holds(nodes, parts)
  {
    n := new ParsedPath();
    assert forall i | 0 <= i < |nodes| - 1 :: nodes[i] != pathScout;
    pathScout.nextDir := n;
    n.prevDir := pathScout;
    ghost var all := nodes + [n];
    forall i | 0 <= i < |all|
      ensures LinkAt(all, i)
    {
      if i < |nodes| {
        assert old(LinkAt(nodes, i));
      }
    }
  }

  /** Line 34: the name of the current node. */
  method FillName(pathScout: ParsedPath, path: array<Byte>, p: nat, ghost nodes: seq<ParsedPath>,
                  ghost parts: seq<seq<Byte>>)
    requires nodes != [] && pathScout == nodes[|nodes| - 1] && Distinct(nodes) && Linked(nodes)
    requires Holds(nodes[..|nodes| - 1], parts) && |nodes| <= |parts|
    requires p < path.Length && CStr(path[..], p) == parts[|nodes| - 1]
    requires exists k | p <= k < path.Length :: path[k] == 0
    modifies pathScout
    ensures Linked(nodes) && Holds(nodes, parts)
  {
    hide CStr, Take;
    ghost var front := nodes[..|nodes| - 1];
    assert forall i | 0 <= i < |nodes| - 1 :: front[i] == nodes[i] && nodes[i] != pathScout;
    pathScout.currDir := Strncpy(path, p, FILESYSTEM_DIR_MAX_SIZE);
    forall i | 0 <= i < |nodes|
      ensures LinkAt(nodes, i) && nodes[i].currDir == Take(parts[i], FILESYSTEM_DIR_MAX_SIZE)
    {
      assert old(LinkAt(nodes, i));
      assert i < |nodes| - 1 ==> nodes[i].currDir == old(front[i].currDir);
    }
  }

  lemma HoldsMore(nodes: seq<ParsedPath>, parts: seq<seq<Byte>>, more: seq<seq<Byte>>)
    requires Holds(nodes, parts) && parts <= more
    ensures Holds(nodes, more)
  {
  }

  /** The loop of `parsePath`, from the first piece on. */
  method BuildList(st: Strtok, first: nat, newPath: ParsedPath) returns (ghost nodes: seq<ParsedPath>)
    requires st.Valid() && st.started && |st.given| == 1 && st.PointsAt(Some(first), st.given[0])
    requires newPath.nextDir == null && newPath.prevDir == null
    modifies st, st.str, newPath
    ensures nodes != [] && newPath == nodes[0] && Linked(nodes) && forall i | 1 <= i < |nodes| :: fresh(nodes[i])
    ensures |nodes| == |Pieces(st.text, st.delim)| && Holds(nodes, Pieces(st.text, st.delim))
  {
    hide Split, Cut, CStr, Strtok.Valid, Strtok.Coming, Take, Linked, Holds, Distinct, Pieces;
    var pathScout := newPath;
    nodes := [newPath];
    OneNode(newPath);
    var ptr: Option<nat> := Some(first);
    while true
      invariant st.Valid() && st.started
      invariant 0 < |nodes| == |st.given| && nodes[0] == newPath && pathScout == nodes[|nodes| - 1]
      invariant (forall i | 1 <= i < |nodes| :: fresh(nodes[i])) && Distinct(nodes) && Linked(nodes)
      invariant Holds(nodes[..|nodes| - 1], st.given) && st.PointsAt(ptr, st.given[|nodes| - 1])
      decreases |st.Coming()|
    {
      ghost var given := st.given;
      FillName(pathScout, st.str, ptr.value, nodes, given);
      ptr := st.Call(false);
      if ptr == None {
        break;
      }
      pathScout := Append(pathScout, nodes, given);
      HoldsMore(nodes, given, st.given);
      assert (nodes + [pathScout])[..|nodes|] == nodes;
      nodes := nodes + [pathScout];
    }
    st.Finished();
  }

  lemma OneNode(n: ParsedPath)
    requires n.nextDir == null && n.prevDir == null
    ensures Linked([n]) && Distinct([n]) && forall parts :: Holds([n][..0], parts)
  {
    assert LinkAt([n], 0);
  }

  /** `parsePath` on a non-empty path: the list is the split at slashes, each name cut to the
    * size of the field. */
  method ParsePath(path: array<Byte>, ghost text: seq<Byte>) returns (newPath: ParsedPath, ghost nodes: seq<ParsedPath>)
    requires Text(text) && text != [] && path[..] == text + [0]
    modifies path
    ensures nodes != [] && newPath == nodes[0] && Linked(nodes)
    ensures var parts := Split(text, [47]); |nodes| == |parts| && Holds(nodes, parts)
  {
    hide Split, Cut, CStr, Strtok.Valid, Strtok.Coming, Linked, Holds;
    newPath := new ParsedPath();
    var st := new Strtok(path, SLASH, text);
    st.AllComing();
    var ptr: Option<nat> := st.Call(true);
    nodes := BuildList(st, ptr.value, newPath);
  }
}
