/** The argument page of a new thread: lines 372-397 of src/kernel/task/task.cpp. */
module ArgPage {
  import opened Options
  import opened Strings

  const SPACE: seq<Byte> := [32]
  const PAGE := 4096

  // ---------- Little-endian pointers ----------

  function Pow256(k: nat): (p: nat)
    ensures p > 0
  {
    if k == 0 then 1 else 256 * Pow256(k - 1)
  }

  function ToLE(n: nat, k: nat): (s: seq<Byte>)
    ensures |s| == k
  {
    if k == 0 then [] else [n % 256] + ToLE(n / 256, k - 1)
  }

  function FromLE(s: seq<Byte>): nat
  {
    if s == [] then 0 else s[0] + 256 * FromLE(s[1..])
  }

  lemma {:induction false} LERoundTrip(n: nat, k: nat)
    requires n < Pow256(k)
    ensures FromLE(ToLE(n, k)) == n
    decreases k
  {
    if k > 0 {
      LERoundTrip(n / 256, k - 1);
      assert ToLE(n, k)[1..] == ToLE(n / 256, k - 1);
    }
  }

  /** Byte i of a stored pointer is its i-th byte from the low end. */
  lemma {:induction false} LowByteFirst(n: nat, k: nat, i: nat)
    requires i < k
    ensures ToLE(n, k)[i] == n / Pow256(i) % 256
    decreases k
  {
    if i > 0 {
      LowByteFirst(n / 256, k - 1, i - 1);
      DivTwice(n, Pow256(i - 1));
    }
  }

  lemma {:induction false} DivTwice(n: nat, p: nat)
    requires p > 0
    ensures n / 256 / p == n / (256 * p)
  {
    var q, r := n / (256 * p), n % (256 * p);
    assert n == 256 * (p * q) + r;
    assert n / 256 == p * q + r / 256;
    assert 0 <= r / 256 < p;
    DivOf(n / 256, p, q, r / 256);
  }

  lemma DivOf(x: nat, p: nat, q: nat, r: nat)
    requires p > 0 && x == p * q + r && r < p
    ensures x / p == q
  {
    var d := x / p - q;
    assert p * d == p * (x / p) - p * q;
    assert d >= 1 ==> p * d >= p;
    assert d <= -1 ==> p * d + p <= 0;
  }

  lemma Pow256Eight()
    ensures Pow256(8) == 0x1_0000_0000_0000_0000
  {
    assert Pow256(2) == 0x10000;
    assert Pow256(4) == 0x100000000;
    assert Pow256(6) == 0x1000000000000;
  }

  // ---------- The layout ----------

  /** The strings one after the other, each with its terminator. */
  function Pack(parts: seq<seq<Byte>>): seq<Byte>
  {
    if parts == [] then [] else Pack(parts[..|parts| - 1]) + parts[|parts| - 1] + [0]
  }

  /** Where string i begins. */
  function Offset(parts: seq<seq<Byte>>, i: nat): nat
    requires i <= |parts|
  {
    |Pack(parts[..i])|
  }

  function ReadPtr(mem: seq<Byte>, q: nat): nat
    requires q + 8 <= |mem|
  {
    FromLE(mem[q..q + 8])
  }

  /** Entry i of a pointer array at q. */
  function Slot(mem: seq<Byte>, q: nat, i: nat): nat
    requires q + 8 * i + 8 <= |mem|
  {
    ReadPtr(mem, q + 8 * i)
  }

  /** The packed strings of a prefix begin the packed strings of the whole. */
  lemma {:induction false} PackPrefix(parts: seq<seq<Byte>>, i: nat)
    requires i <= |parts|
    ensures Pack(parts[..i]) <= Pack(parts)
    decreases |parts| - i
  {
    if i == |parts| {
      assert parts[..i] == parts;
    } else {
      assert parts[..i + 1][..i] == parts[..i];
      PackPrefix(parts, i + 1);
      assert Pack(parts[..i]) <= Pack(parts[..i + 1]);
    }
  }

  /** String i sits at its offset and ends before string i + 1 begins. */
  lemma PieceInPack(parts: seq<seq<Byte>>, i: nat)
    requires i < |parts|
    ensures Offset(parts, i + 1) == Offset(parts, i) + |parts[i]| + 1 <= |Pack(parts)|
    ensures Pack(parts)[Offset(parts, i)..Offset(parts, i) + |parts[i]|] == parts[i]
    ensures Pack(parts)[Offset(parts, i) + |parts[i]|] == 0
  {
    hide Pack;
    PackPrefix(parts, i + 1);
    PackSnoc(parts, i);
    Middle(Pack(parts[..i]), parts[i], Pack(parts));
  }

  lemma PackSnoc(parts: seq<seq<Byte>>, i: nat)
    requires i < |parts|
    ensures Pack(parts[..i + 1]) == Pack(parts[..i]) + parts[i] + [0]
  {
    assert parts[..i + 1][..i] == parts[..i];
  }

  lemma Middle(a: seq<Byte>, x: seq<Byte>, all: seq<Byte>)
    requires a + x + [0] <= all
    ensures |a| + |x| < |all| && all[|a|..|a| + |x|] == x && all[|a| + |x|] == 0
  {
    var b := a + x + [0];
    assert forall i | 0 <= i < |b| :: all[i] == b[i];
  }

  /** A page that begins with the packed strings can be read string by string. */
  lemma ReadPiece(mem: seq<Byte>, parts: seq<seq<Byte>>, i: nat)
    requires i < |parts| && Pack(parts) <= mem && Text(parts[i])
    ensures Offset(parts, i + 1) == Offset(parts, i) + |parts[i]| + 1 <= |mem|
    ensures CStr(mem, Offset(parts, i)) == parts[i] && mem[Offset(parts, i) + |parts[i]|] == 0
  {
    PieceInPack(parts, i);
    var o := Offset(parts, i);
    var all := Pack(parts);
    assert mem[..|all|] == all;
    assert mem[o..o + |parts[i]|] == all[o..o + |parts[i]|];
    assert mem[o + |parts[i]|] == mem[..|all|][o + |parts[i]|];
    CStrAt(mem, o, parts[i]);
  }

  // ---------- Filling the page ----------

  /** `memcpy` of len bytes between buffers. */
  method Memcpy(dst: array<Byte>, q: nat, src: array<Byte>, p: nat, len: nat)
    requires dst != src && q + len <= dst.Length && p + len <= src.Length
    modifies dst
    ensures dst[..] == old(dst[..q]) + src[p..p + len] + old(dst[q + len..])
  {
    ghost var bytes := src[p..p + len];
    for l := 0 to len
      invariant forall i | 0 <= i < dst.Length :: dst[i] == if q <= i < q + l then bytes[i - q] else old(dst[i])
    {
      dst[q + l] := src[p + l];
    }
  }

  /** Store a pointer, eight bytes, lowest first. */
  method WritePtr(mem: array<Byte>, q: nat, value: nat)
    requires q + 8 <= mem.Length && value < 0x1_0000_0000_0000_0000
    modifies mem
    ensures mem[..] == old(mem[..q]) + ToLE(value, 8) + old(mem[q + 8..])
    ensures ReadPtr(mem[..], q) == value
  {
    hide ToLE, FromLE;
    var bytes := ToLE(value, 8);
    for j := 0 to 8
      invariant mem[..q] == old(mem[..q]) && mem[q + j..] == old(mem[q + j..])
      invariant forall i | 0 <= i < j :: mem[q + i] == bytes[i]
    {
      mem[q + j] := bytes[j];
    }
    assert mem[q..q + 8] == bytes;
    assert mem[..] == mem[..q] + mem[q..q + 8] + mem[q + 8..];
    assert mem[..][q..q + 8] == bytes;
    Pow256Eight();
    LERoundTrip(value, 8);
  }

  /** The page holds the packed strings and is zero behind them. */
  ghost predicate Filled(mem: seq<Byte>, parts: seq<seq<Byte>>)
  {
    Pack(parts) <= mem && forall i | |Pack(parts)| <= i < |mem| :: mem[i] == 0
  }

  lemma FillNext(mem: seq<Byte>, mem': seq<Byte>, parts: seq<seq<Byte>>, piece: seq<Byte>)
    requires Filled(mem, parts) && |Pack(parts)| + |piece| < |mem|
    requires mem' == mem[..|Pack(parts)|] + piece + mem[|Pack(parts)| + |piece|..]
    ensures Filled(mem', parts + [piece]) && |Pack(parts + [piece])| == |Pack(parts)| + |piece| + 1
  {
    var all := parts + [piece];
    assert all[..|parts|] == parts;
    PackSnoc(all, |parts|);
    assert all[..|parts| + 1] == all;
    assert mem[..|Pack(parts)|] == Pack(parts);
    assert mem'[..|Pack(all)|] == Pack(all);
  }

  /** Lines 373-386: copy every argument behind the previous one. */
  method CopyStrings(st: Strtok, page: array<Byte>) returns (argc: nat, end: nat)
    requires st.Valid() && !st.started && st.given == [] && st.str != page
    requires |Pack(Pieces(st.text, st.delim))| <= page.Length && forall i | 0 <= i < page.Length :: page[i] == 0
    modifies st, st.str, page
    ensures argc == |Pieces(st.text, st.delim)| && end == |Pack(Pieces(st.text, st.delim))|
    ensures Filled(page[..], Pieces(st.text, st.delim))
  {
    hide Split, Cut, CStr, Strtok.Valid, Strtok.Coming, Pieces, Pack, Filled;
    argc, end := 0, 0;
    EmptyPage(page[..]);
    var arg: Option<nat> := st.Call(true);
    while arg.Some?
      invariant st.Valid() && st.started
      invariant if arg.Some? then |st.given| == argc + 1 && st.PointsAt(arg, st.given[argc])
                else |st.given| == argc && st.Coming() == []
      invariant Filled(page[..], st.given[..argc]) && end == |Pack(st.given[..argc])|
      decreases |st.Coming()| + if arg.Some? then 1 else 0
    {
      ghost var given := st.given;
      ghost var before := page[..];
      RoomLeft(st, argc, page.Length);
      var len := Strlen(st.str, arg.value);
      Memcpy(page, end, st.str, arg.value, len);
      FillNext(before, page[..], given[..argc], given[argc]);
      assert given[..argc] + [given[argc]] == given;
      end := end + len + 1;
      argc := argc + 1;
      arg := st.Call(false);
      assert st.given[..argc] == given;
    }
    st.Finished();
    assert st.given[..argc] == st.given;
  }

  lemma EmptyPage(mem: seq<Byte>)
    requires forall i | 0 <= i < |mem| :: mem[i] == 0
    ensures Filled(mem, []) && Pack([]) == []
  {
  }

  /** What has been given out is the beginning of all pieces, so its strings fit. */
  lemma RoomLeft(st: Strtok, argc: nat, room: nat)
    requires st.Valid() && |st.given| == argc + 1 && |Pack(Pieces(st.text, st.delim))| <= room
    ensures |Pack(st.given[..argc])| + |st.given[argc]| + 1 <= room
  {
    var all := Pieces(st.text, st.delim);
    assert all[..argc + 1] == st.given && all[..argc] == st.given[..argc] && all[argc] == st.given[argc];
    PieceInPack(all, argc);
  }

  /** Writing behind the first i pointers keeps them and the strings in front. */
  lemma SlotsKept(a: seq<Byte>, b: seq<Byte>, q: nat, i: nat, all: seq<Byte>)
    requires |a| == |b| && q + 8 * i <= |a| && b[..q + 8 * i] == a[..q + 8 * i] && all <= a && |all| <= q
    ensures all <= b && forall j | 0 <= j < i :: Slot(b, q, j) == Slot(a, q, j)
  {
    assert b[..|all|] == b[..q + 8 * i][..|all|] == a[..|all|];
    forall j | 0 <= j < i
      ensures Slot(b, q, j) == Slot(a, q, j)
    {
      var o := q + 8 * j;
      assert b[o..o + 8] == b[..q + 8 * i][o..o + 8] == a[..q + 8 * i][o..o + 8] == a[o..o + 8];
    }
  }

  /** Store pointer i of the array at q; pointers and strings before it stay. */
  method WriteSlot(page: array<Byte>, q: nat, i: nat, value: nat, ghost all: seq<Byte>)
    requires q + 8 * i + 8 <= page.Length && value < 0x1_0000_0000_0000_0000 && all <= page[..] && |all| <= q
    modifies page
    ensures all <= page[..] && Slot(page[..], q, i) == value
    ensures forall j | 0 <= j < i :: Slot(page[..], q, j) == old(Slot(page[..], q, j))
  {
    hide FromLE, ToLE;
    ghost var before := page[..];
    WritePtr(page, q + 8 * i, value);
    SlotsKept(before, page[..], q, i, all);
  }

  /** Lines 390-394: the pointer array right behind the strings. */
  method WriteArgv(page: array<Byte>, argc: nat, end: nat, base: nat, ghost parts: seq<seq<Byte>>)
    requires argc == |parts| && end == |Pack(parts)| && end + 8 * argc <= page.Length
    requires base + page.Length <= 0x1_0000_0000_0000_0000
    requires Pack(parts) <= page[..] && forall i | 0 <= i < |parts| :: Text(parts[i])
    modifies page
    ensures Pack(parts) <= page[..]
    ensures forall i | 0 <= i < argc :: Slot(page[..], end, i) == base + Offset(parts, i)
  {
    hide Pack, CStr, Slot;
    var argv0 := 0;
    NoOffset(parts);
    for i := 0 to argc
      invariant argv0 == Offset(parts, i) && Pack(parts) <= page[..]
      invariant forall j | 0 <= j < i :: Slot(page[..], end, j) == base + Offset(parts, j)
    {
      PieceInPack(parts, i);
      WriteSlot(page, end, i, base + argv0, Pack(parts));
      ReadPiece(page[..], parts, i);
      var len := Strlen(page, argv0);
      argv0 := argv0 + len + 1;
    }
  }

  lemma NoOffset(parts: seq<seq<Byte>>)
    ensures Offset(parts, 0) == 0
  {
    assert parts[..0] == [];
  }

  /** The whole argument page of a thread: argc counts the pieces of the argument string, the
    * pointer array follows the strings, and every argv[i] points to a terminated copy of
    * piece i. The page must start zeroed and have room for strings and pointers. */
  method ThreadArgs(args: array<Byte>, ghost text: seq<Byte>, page: array<Byte>, base: nat)
    returns (argc: nat, argv: nat)
    requires Text(text) && args[..] == text + [0] && args != page
    requires page.Length == PAGE && forall i | 0 <= i < PAGE :: page[i] == 0
    requires base + PAGE <= 0x1_0000_0000_0000_0000
    requires |Pack(Pieces(text, SPACE))| + 8 * |Pieces(text, SPACE)| <= PAGE
    modifies args, page
    ensures argc == |Pieces(text, SPACE)| && argv == base + |Pack(Pieces(text, SPACE))|
    ensures forall i | 0 <= i < argc ::
              var p := Slot(page[..], argv - base, i);
              && base <= p && p + |Pieces(text, SPACE)[i]| < argv
              && CStr(page[..], p - base) == Pieces(text, SPACE)[i]
  {
    hide Split, Cut, CStr, Strtok.Valid, Strtok.Coming, Pieces, Pack, Slot;
    var st := new Strtok(args, SPACE, text);
    var end;
    argc, end := CopyStrings(st, page);
    argv := base + end;
    ghost var parts := Pieces(text, SPACE);
    PiecesText(text, SPACE);
    FilledPrefix(page[..], parts);
    WriteArgv(page, argc, end, base, parts);
    forall i | 0 <= i < argc
      ensures Slot(page[..], argv - base, i) == base + Offset(parts, i)
      ensures Offset(parts, i) + |parts[i]| < end && CStr(page[..], Offset(parts, i)) == parts[i]
    {
      assert Slot(page[..], end, i) == base + Offset(parts, i);
      PieceInPack(parts, i);
      ReadPiece(page[..], parts, i);
    }
  }

  lemma FilledPrefix(mem: seq<Byte>, parts: seq<seq<Byte>>)
    requires Filled(mem, parts)
    ensures Pack(parts) <= mem
  {
  }

  lemma {:induction false} SplitText(s: seq<Byte>, delim: seq<Byte>)
    requires Text(s)
    ensures forall i | 0 <= i < |Split(s, delim)| :: Text(Split(s, delim)[i])
    decreases |s|
  {
    var e := Cut(s, delim);
    if e < |s| {
      SplitText(s[e + 1..], delim);
    }
  }

  lemma PiecesText(s: seq<Byte>, delim: seq<Byte>)
    requires Text(s)
    ensures forall i | 0 <= i < |Pieces(s, delim)| :: Text(Pieces(s, delim)[i])
  {
    SplitText(s, delim);
  }
}
