/** Splitting strings with `strtok` (src/kernel/libk/kstring.cpp). */
module Strings {
  import opened Options

  /** No terminator inside. */
  predicate Text(s: seq<Byte>)
  {
    forall i | 0 <= i < |s| :: s[i] != 0
  }

  /** Position of the first delimiter, or the length. */
  function Cut(s: seq<Byte>, delim: seq<Byte>): (e: nat)
    ensures e <= |s|
    ensures forall i | 0 <= i < e :: s[i] !in delim
    ensures e < |s| ==> s[e] in delim
  {
    if s == [] || s[0] in delim then 0 else 1 + Cut(s[1..], delim)
  }

  /** The pieces between delimiters; empty pieces are kept. */
  function Split(s: seq<Byte>, delim: seq<Byte>): (parts: seq<seq<Byte>>)
    ensures |parts| > 0
    decreases |s|
  {
    var e := Cut(s, delim);
    if e == |s| then [s] else [s[..e]] + Split(s[e + 1..], delim)
  }

  /** The delimiters themselves, in order. */
  function Seps(s: seq<Byte>, delim: seq<Byte>): seq<Byte>
    decreases |s|
  {
    var e := Cut(s, delim);
    if e == |s| then [] else [s[e]] + Seps(s[e + 1..], delim)
  }

  function Join(parts: seq<seq<Byte>>, seps: seq<Byte>): seq<Byte>
    requires |parts| == |seps| + 1
  {
    if seps == [] then parts[0] else parts[0] + [seps[0]] + Join(parts[1..], seps[1..])
  }

  lemma JoinFirst(a: seq<Byte>, b: Byte, parts: seq<seq<Byte>>, seps: seq<Byte>)
    requires |parts| == |seps| + 1
    ensures Join([a] + parts, [b] + seps) == a + [b] + Join(parts, seps)
  {
    assert ([a] + parts)[1..] == parts && ([b] + seps)[1..] == seps;
  }

  lemma JoinOne(s: seq<Byte>)
    ensures Join([s], []) == s
  {
  }

  /** Joining the pieces with the original delimiters restores the string. */
  lemma {:induction false} JoinSplit(s: seq<Byte>, delim: seq<Byte>)
    ensures |Split(s, delim)| == |Seps(s, delim)| + 1
    ensures Join(Split(s, delim), Seps(s, delim)) == s
    decreases |s|
  {
    hide Cut, Join;
    var e := Cut(s, delim);
    if e < |s| {
      var rest := s[e + 1..];
      JoinSplit(rest, delim);
      JoinFirst(s[..e], s[e], Split(rest, delim), Seps(rest, delim));
      assert s == s[..e] + [s[e]] + rest;
    } else {
      JoinOne(s);
    }
  }

  /** No piece holds a delimiter. */
  ghost predicate Clean(parts: seq<seq<Byte>>, seps: seq<Byte>, delim: seq<Byte>)
  {
    && (forall i, b | 0 <= i < |parts| && b in parts[i] :: b !in delim)
    && (forall i | 0 <= i < |seps| :: seps[i] in delim)
  }

  lemma {:induction false} SplitClean(s: seq<Byte>, delim: seq<Byte>)
    ensures Clean(Split(s, delim), Seps(s, delim), delim)
    decreases |s|
  {
    var e := Cut(s, delim);
    if e < |s| {
      SplitClean(s[e + 1..], delim);
    }
  }

  lemma {:induction false} CutAt(a: seq<Byte>, rest: seq<Byte>, delim: seq<Byte>)
    requires forall b | b in a :: b !in delim
    requires rest == [] || rest[0] in delim
    ensures Cut(a + rest, delim) == |a|
  {
    if a != [] {
      assert (a + rest)[1..] == a[1..] + rest;
      CutAt(a[1..], rest, delim);
    }
  }

  /** And splitting a join gives back the pieces: the two are inverse to each other. */
  lemma {:induction false} SplitJoin(parts: seq<seq<Byte>>, seps: seq<Byte>, delim: seq<Byte>)
    requires |parts| == |seps| + 1
    requires Clean(parts, seps, delim)
    ensures Split(Join(parts, seps), delim) == parts && Seps(Join(parts, seps), delim) == seps
  {
    hide Cut;
    if seps == [] {
      CutAt(parts[0], [], delim);
      assert parts[0] + [] == parts[0];
      assert parts == [parts[0]];
    } else {
      var rest := Join(parts[1..], seps[1..]);
      var s := Join(parts, seps);
      assert s == parts[0] + ([seps[0]] + rest);
      CutAt(parts[0], [seps[0]] + rest, delim);
      assert s[|parts[0]| + 1..] == rest && s[..|parts[0]|] == parts[0] && s[|parts[0]|] == seps[0];
      SplitJoin(parts[1..], seps[1..], delim);
    }
  }

  /** So the split is the only way to cut the string at its delimiters. */
  lemma SplitUnique(s: seq<Byte>, delim: seq<Byte>, parts: seq<seq<Byte>>, seps: seq<Byte>)
    requires |parts| == |seps| + 1
    ensures Clean(parts, seps, delim) && Join(parts, seps) == s <==> parts == Split(s, delim) && seps == Seps(s, delim)
  {
    JoinSplit(s, delim);
    SplitClean(s, delim);
    if Clean(parts, seps, delim) {
      SplitJoin(parts, seps, delim);
    }
  }

  /** What is left of the text once the delimiters have been overwritten. */
  function Zapped(s: seq<Byte>, delim: seq<Byte>): (z: seq<Byte>)
    ensures |z| == |s|
  {
    seq(|s|, i requires 0 <= i < |s| => if s[i] in delim then 0 else s[i])
  }

  /** The terminated string that starts at p. */
  function CStr(mem: seq<Byte>, p: nat): seq<Byte>
    requires p <= |mem|
    decreases |mem| - p
  {
    if p == |mem| || mem[p] == 0 then [] else [mem[p]] + CStr(mem, p + 1)
  }

  lemma {:induction false} CStrAt(mem: seq<Byte>, p: nat, s: seq<Byte>)
    requires Text(s) && p + |s| < |mem| && mem[p..p + |s|] == s && mem[p + |s|] == 0
    ensures CStr(mem, p) == s
    decreases |s|
  {
    if s != [] {
      assert mem[p] == mem[p..p + |s|][0] == s[0];
      assert mem[p + 1..p + |s|] == s[1..];
      CStrAt(mem, p + 1, s[1..]);
    }
  }

  method Strlen(mem: array<Byte>, p: nat) returns (length: nat)
    requires p < mem.Length && exists k | p <= k < mem.Length :: mem[k] == 0
    ensures length == |CStr(mem[..], p)| && p + length < mem.Length && mem[p + length] == 0
    ensures CStr(mem[..], p) == mem[p..p + length]
  {
    length := 0;
    while mem[p + length] != 0
      invariant p + length < mem.Length && exists k | p + length <= k < mem.Length :: mem[k] == 0
      invariant forall i | p <= i < p + length :: mem[i] != 0
      decreases mem.Length - length
    {
      length := length + 1;
    }
    CStrAt(mem[..], p, mem[p..p + length]);
  }

  /** What iterating `strtok` yields: nothing for the empty string. */
  function Pieces(s: seq<Byte>, delim: seq<Byte>): seq<seq<Byte>>
  {
    if s == [] then [] else Split(s, delim)
  }

  /** `strtok` with its static state over one buffer and one set of delimiters. */
  class Strtok {
    const str: array<Byte>
    const delim: seq<Byte>
    ghost const text: seq<Byte>
    var end: Option<nat>
    ghost var started: bool
    ghost var given: seq<seq<Byte>>  // the pieces returned so far

    /** Where the part that has not been looked at begins. */
    ghost function Rest(): nat
      reads this
    {
      if !started then 0 else if end.Some? then end.value + 1 else |text|
    }

    /** Pieces still to come. */
    ghost function Coming(): seq<seq<Byte>>
      reads this
    {
      if !started then Pieces(text, delim)
      else if end.Some? && end.value < |text| then Split(text[end.value + 1..], delim)
      else []
    }

    ghost predicate Valid()
      reads this, str
    {
      && Text(text) && 0 !in delim
      && Rest() <= |text|
      && str.Length == |text| + 1 && str[|text|] == 0
      && (forall i | 0 <= i < |text| :: str[i] == if i < Rest() && text[i] in delim then 0 else text[i])
      && (!started ==> end == None)
      && given + Coming() == Pieces(text, delim)
    }

    constructor (buffer: array<Byte>, delim: seq<Byte>, ghost text: seq<Byte>)
      requires Text(text) && 0 !in delim && buffer[..] == text + [0]
      ensures Valid() && !started && given == [] && str == buffer && this.text == text && this.delim == delim
    {
      assert forall i | 0 <= i < |text| :: buffer[..][i] == text[i];
      assert buffer[..][|text|] == 0;
      str, this.delim, this.text := buffer, delim, text;
      end, started, given := None, false, [];
    }

    /** `first` is a call with the buffer, otherwise the call passes NULL. */
    method Call(first: bool) returns (tok: Option<nat>)
      requires Valid() && first == !started
      modifies this, str
      ensures Valid() && started
      ensures old(Coming()) == [] ==> tok == None && given == old(given) && Coming() == [] && str[..] == old(str[..])
      ensures old(Coming()) != [] ==>
                && given == old(given) + [old(Coming())[0]] && Coming() == old(Coming())[1..]
                && PointsAt(tok, old(Coming())[0])
    {
      var start := 0;
      if first {
        if str[0] == 0 {
          started := true;
          return None;
        }
      } else {
        if end == None {
          return None;
        }
        start := end.value + 1;
      }
      tok := Scan(start);
    }

    /** The loop of lines 176-188: stops at a delimiter or at the terminator. */
    method FindEnd(start: nat) returns (pos: nat)
      requires Valid() && start == Rest()
      ensures start <= pos <= |text| && (str[pos] == 0 <==> pos == |text|)
      ensures pos - start == Cut(text[start..], delim)
    {
      pos := start;
      while str[pos] != 0
        invariant start <= pos <= |text|
        invariant forall i | start <= i < pos :: text[i] !in delim
        decreases |text| - pos
      {
        if str[pos] in delim {
          break;
        }
        pos := pos + 1;
      }
      Ahead(start, pos);
    }

    /** Lines 176-192, from a position where a piece begins. */
    method Scan(start: nat) returns (tok: Option<nat>)
      requires Valid() && start == Rest() && Coming() != [] && Coming() == Split(text[start..], delim)
      modifies this, str
      ensures Valid() && started
      ensures given == old(given) + [old(Coming())[0]] && Coming() == old(Coming())[1..]
      ensures PointsAt(tok, old(Coming())[0])
    {
      hide Split, Cut, CStr;
      ghost var rest := text[start..];
      var pos := FindEnd(start);
      tok := Some(start);
      SplitFirst(rest, delim);
      if str[pos] != 0 {
        assert text[pos + 1..] == rest[pos - start + 1..];
        str[pos] := 0;
        end := Some(pos);
      } else {
        end := None;
      }
      started := true;
      given := given + [rest[..pos - start]];
      PieceAt(str[..], text, start, pos);
      assert str[pos] == 0;
    }

    /** A returned pointer: a terminated string inside the buffer that reads as the piece. */
    ghost predicate PointsAt(tok: Option<nat>, piece: seq<Byte>)
      reads this, str
    {
      && tok.Some? && tok.value < str.Length && CStr(str[..], tok.value) == piece
      && exists k | tok.value <= k < str.Length :: str[k] == 0
    }

    lemma AllComing()
      requires Valid() && !started
      ensures Coming() == Pieces(text, delim) && (text != [] ==> Coming() != [])
    {
    }

    /** After the last piece every delimiter has been overwritten and every piece given. */
    lemma Finished()
      requires Valid() && started && Coming() == []
      ensures given == Pieces(text, delim) && str[..] == Zapped(text, delim) + [0]
    {
      hide CStr, Cut;
      assert given + [] == given;
      assert end == None;
    }

    /** The scan stops where the specification cuts. */
    lemma Ahead(start: nat, pos: nat)
      requires start <= pos <= |text| && (forall i | start <= i < pos :: text[i] !in delim)
      requires pos < |text| ==> text[pos] in delim
      ensures Cut(text[start..], delim) == pos - start
    {
      assert text[start..] == text[start..pos] + text[pos..];
      CutAt(text[start..pos], text[pos..], delim);
    }
  }

  lemma SplitFirst(s: seq<Byte>, delim: seq<Byte>)
    ensures Split(s, delim)[0] == s[..Cut(s, delim)]
    ensures Split(s, delim)[1..] == if Cut(s, delim) == |s| then [] else Split(s[Cut(s, delim) + 1..], delim)
    ensures Cut(s, delim) < |s| ==> s[Cut(s, delim)] in delim
    ensures forall i | 0 <= i < Cut(s, delim) :: s[i] !in delim
  {
  }

  lemma PieceAt(mem: seq<Byte>, text: seq<Byte>, start: nat, pos: nat)
    requires Text(text) && start <= pos <= |text| && |mem| == |text| + 1 && mem[pos] == 0
    requires forall i | start <= i < pos :: mem[i] == text[i]
    ensures CStr(mem, start) == text[start..][..pos - start]
  {
    assert mem[start..pos] == text[start..][..pos - start];
    CStrAt(mem, start, text[start..][..pos - start]);
  }

  /** Calling `strtok` until it returns NULL. */
  method Drain(st: Strtok) returns (out: seq<seq<Byte>>)
    requires st.Valid() && !st.started && st.given == []
    modifies st, st.str
    ensures out == Pieces(st.text, st.delim)
    ensures st.str[..] == Zapped(st.text, st.delim) + [0]
  {
    hide Split, Cut, CStr, Strtok.Valid, Strtok.Coming, Pieces, Zapped;
    out := [];
    var tok: Option<nat> := st.Call(true);
    while tok.Some?
      invariant st.Valid() && st.started
      invariant tok.Some? ==> |st.given| == |out| + 1 && st.given[..|out|] == out && st.PointsAt(tok, st.given[|out|])
      invariant tok.None? ==> st.given == out && st.Coming() == []
      decreases |st.Coming()| + if tok.Some? then 1 else 0
    {
      var len := Strlen(st.str, tok.value);
      out := out + [st.str[tok.value..tok.value + len]];
      tok := st.Call(false);
    }
    st.Finished();
  }

  /** Iterating `strtok` over a string terminates and yields exactly the pieces of the string,
    * leaving every delimiter overwritten. */
  method Tokenize(buffer: array<Byte>, delim: seq<Byte>, ghost text: seq<Byte>) returns (out: seq<seq<Byte>>)
    requires Text(text) && 0 !in delim && buffer[..] == text + [0]
    modifies buffer
    ensures out == Pieces(text, delim)
    ensures buffer[..] == Zapped(text, delim) + [0]
  {
    var st := new Strtok(buffer, delim, text);
    out := Drain(st);
  }
}
