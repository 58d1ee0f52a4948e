/** The four-level walk and `mapPg` on physical memory whose tables come from the frame
  * allocator (src/kernel/memory/paging/paging.cpp). */
module PageTables {
  import opened Frames
  import opened Options
  import opened PageEntries

  const ROOT := 1  // PML4T_ADDR / PAGE_SIZE

  /** Physical memory, one row of 512 words for every frame of the map. */
  type Memory = seq<seq<nat>>
  datatype Machine = Machine(frames: FrameState, mem: Memory)
  datatype Translation = Absent | Page(frame: nat, flags: nat)

  ghost predicate WellSized(m: Machine)
  {
    && |m.mem| == |m.frames.bits| <= FIELD
    && (forall f | 0 <= f < |m.mem| :: |m.mem[f]| == 512)
  }

  /** `PTidx`, `PDidx`, `PDTidx`, `PML4idx` for levels 1 to 4. */
  function Index(v: nat, level: nat): (i: nat)
    requires 1 <= level <= 4
    ensures i < 512
  {
    match level
    case 1 => v / 0x1000 % 512
    case 2 => v / 0x200000 % 512
    case 3 => v / 0x40000000 % 512
    case _ => v / 0x8000000000 % 512
  }

  /** The processor's walk from table f at the given level, on bit 0. */
  function Walk(mem: Memory, f: nat, level: nat, v: nat): Translation
    requires 1 <= level <= 4 && f < |mem| && forall g | 0 <= g < |mem| :: |mem[g]| == 512
    decreases level
  {
    var e := mem[f][Index(v, level)];
    if !HardPresent(e) then Absent
    else if level == 1 then Page(FrameOf(e), e % 4096)
    else if FrameOf(e) < |mem| then Walk(mem, FrameOf(e), level - 1, v)
    else Absent
  }

  // ---------- The tree of tables ----------

  /** Where a table hangs: its level, and the only entry that may point at it. */
  datatype Node = Node(level: nat, parent: nat, slot: nat)
  type Tables = map<nat, Node>

  /** One entry of table f: both presence tests agree, and an entry above the leaves that
    * is present is a plain pointer to the table that hangs there. */
  ghost predicate EntryOk(e: nat, tables: Tables, f: nat, i: nat)
    requires f in tables
  {
    && (SoftPresent(e) <==> HardPresent(e))
    && (HardPresent(e) && tables[f].level > 1 ==>
          && !Bit(e, PDE_S)
          && FrameOf(e) in tables
          && tables[FrameOf(e)] == Node(tables[f].level - 1, f, i))
  }

  ghost predicate EntryIn(m: Machine, tables: Tables, f: nat, i: nat)
    requires f in tables && f < |m.mem| && i < |m.mem[f]|
  {
    EntryOk(m.mem[f][i], tables, f, i)
  }

  /** The tables are distinct frames in use that form a tree under the root. */
  ghost predicate Tree(m: Machine, tables: Tables)
    requires WellSized(m)
  {
    && ROOT in tables && tables[ROOT].level == 4
    && (forall f | f in tables :: f < |m.mem| && m.frames.bits[f] && 1 <= tables[f].level <= 4)
    && (forall f, i | f in tables && 0 <= i < 512 :: EntryIn(m, tables, f, i))
  }

  ghost predicate Good(m: Machine, tables: Tables)
  {
    WellSized(m) && HintSound(m.frames) && Tree(m, tables)
  }

  /** What every caller passes: P and R together, no large pages. */
  predicate FlagsOk(flags: nat)
  {
    flags < 4096 && Bit(flags, PDE_P) && Bit(flags, PDE_R) && !Bit(flags, PDE_S)
  }

  // ---------- One level of mapPg ----------

  function Zeros(): (z: seq<nat>)
    ensures |z| == 512
  {
    seq(512, _ => 0)
  }

  /** Store one entry. */
  function Put(mem: Memory, f: nat, i: nat, e: nat): (mem': Memory)
    requires f < |mem| && i < |mem[f]|
    ensures |mem'| == |mem|
  {
    var row: seq<nat> := mem[f][i := e];
    mem[f := row]
  }

  /** Make sure entry i of table f leads to a table, zeroing a fresh frame if it does not. */
  function EnsureTable(m: Machine, f: nat, i: nat, flags: nat): (m': Machine)
    requires WellSized(m) && f < |m.mem| && i < 512
    requires SoftPresent(m.mem[f][i]) || CanGrant(m.frames)
    ensures WellSized(m')
  {
    if SoftPresent(m.mem[f][i]) then m
    else
      var n := Grant(m.frames);
      Machine(Request(m.frames), Put(m.mem[n := Zeros()], f, i, MakeEntry(PAGE_SIZE * n, flags)))
  }

  ghost function GrownTables(m: Machine, tables: Tables, f: nat, i: nat): Tables
    requires WellSized(m) && f < |m.mem| && i < 512 && f in tables && tables[f].level > 1
  {
    if SoftPresent(m.mem[f][i]) then tables
    else tables[Grant(m.frames) := Node(tables[f].level - 1, f, i)]
  }

  lemma ZeroEntry()
    ensures !HardPresent(0) && !SoftPresent(0)
  {
    assert !Bit(0, 1) by { assert !Bit(0, 0); }
  }

  lemma NewEntry(n: nat, flags: nat)
    requires FlagsOk(flags) && n < FIELD
    ensures var e := MakeEntry(PAGE_SIZE * n, flags);
            HardPresent(e) && SoftPresent(e) && !Bit(e, PDE_S) && FrameOf(e) == n && e % 4096 == flags
  {
    EntryRoundTrip(PAGE_SIZE * n, flags);
  }

  lemma EnsureTableKeepsTree(m: Machine, tables: Tables, f: nat, i: nat, flags: nat)
    requires Good(m, tables) && f in tables && tables[f].level > 1 && i < 512 && FlagsOk(flags)
    requires SoftPresent(m.mem[f][i]) || CanGrant(m.frames)
    ensures var m' := EnsureTable(m, f, i, flags);
            var tables' := GrownTables(m, tables, f, i);
            && Good(m', tables')
            && HardPresent(m'.mem[f][i]) && SoftPresent(m'.mem[f][i])
            && FrameOf(m'.mem[f][i]) in tables'
            && tables'[FrameOf(m'.mem[f][i])] == Node(tables[f].level - 1, f, i)
  {
    assert EntryIn(m, tables, f, i);
    if !SoftPresent(m.mem[f][i]) {
      var n := Grant(m.frames);
      ZeroEntry();
      NewEntry(n, flags);
      var m' := EnsureTable(m, f, i, flags);
      var tables' := GrownTables(m, tables, f, i);
      assert n !in tables;
      forall g, j | g in tables' && 0 <= j < 512
        ensures EntryIn(m', tables', g, j)
      {
        if g == n {
          assert m'.mem[g][j] == 0;
        } else if g != f || j != i {
          assert EntryIn(m, tables, g, j);
        }
      }
    }
  }

  /** Hanging an empty table where nothing hung changes no translation, from any table. */
  lemma {:induction false} EnsureTableKeepsWalks(m: Machine, tables: Tables, f: nat, i: nat, flags: nat, g: nat, w: nat)
    requires Good(m, tables) && f in tables && tables[f].level > 1 && i < 512 && FlagsOk(flags)
    requires SoftPresent(m.mem[f][i]) || CanGrant(m.frames)
    requires g in tables
    ensures Walk(EnsureTable(m, f, i, flags).mem, g, tables[g].level, w) == Walk(m.mem, g, tables[g].level, w)
    decreases tables[g].level
  {
    if !SoftPresent(m.mem[f][i]) {
      var n := Grant(m.frames);
      var m' := EnsureTable(m, f, i, flags);
      var level := tables[g].level;
      var j := Index(w, level);
      assert EntryIn(m, tables, g, j);
      if g == f && j == i {
        ZeroEntry();
        NewEntry(n, flags);
        assert m'.mem[n][Index(w, level - 1)] == 0;
      } else {
        assert m'.mem[g][j] == m.mem[g][j];
        if HardPresent(m.mem[g][j]) && level > 1 {
          EnsureTableKeepsWalks(m, tables, f, i, flags, FrameOf(m.mem[g][j]), w);
        }
      }
    }
  }

  // ---------- The whole of mapPg ----------

  /** The table at level 1 that a walk gets to. */
  function Reach(mem: Memory, f: nat, level: nat, v: nat): (pt: Option<nat>)
    requires 1 <= level <= 4 && f < |mem| && forall g | 0 <= g < |mem| :: |mem[g]| == 512
    ensures pt.Some? ==> pt.value < |mem|
    decreases level
  {
    if level == 1 then Some(f)
    else
      var e := mem[f][Index(v, level)];
      if HardPresent(e) && FrameOf(e) < |mem| then Reach(mem, FrameOf(e), level - 1, v) else None
  }

  function LeafOf(e: nat): Translation
  {
    if HardPresent(e) then Page(FrameOf(e), e % 4096) else Absent
  }

  /** In a tree two walks that meet in a table took the same turns. */
  lemma {:induction false} ReachUnique(m: Machine, tables: Tables, f: nat, g: nat, level: nat, v: nat, w: nat)
    requires Good(m, tables) && f in tables && g in tables
    requires level == tables[f].level == tables[g].level
    requires Reach(m.mem, f, level, v).Some? && Reach(m.mem, f, level, v) == Reach(m.mem, g, level, w)
    ensures f == g && forall l | 2 <= l <= level :: Index(v, l) == Index(w, l)
    ensures Reach(m.mem, f, level, v).value in tables && tables[Reach(m.mem, f, level, v).value].level == 1
    decreases level
  {
    if level > 1 {
      var i, j := Index(v, level), Index(w, level);
      assert EntryIn(m, tables, f, i) && EntryIn(m, tables, g, j);
      ReachUnique(m, tables, FrameOf(m.mem[f][i]), FrameOf(m.mem[g][j]), level - 1, v, w);
    }
  }

  /** A frame is there for every table the walk still has to create. */
  ghost predicate CanBuild(m: Machine, f: nat, level: nat, v: nat, flags: nat)
    requires 1 <= level <= 4
    decreases level
  {
    && WellSized(m) && f < |m.mem|
    && (level > 1 ==>
          var i := Index(v, level);
          && (SoftPresent(m.mem[f][i]) || CanGrant(m.frames))
          && var m' := EnsureTable(m, f, i, flags);
             CanBuild(m', FrameOf(m'.mem[f][i]), level - 1, v, flags))
  }

  /** Lines 175-217: create the missing tables from f down; also returns the last one. */
  ghost function BuildPath(m: Machine, f: nat, level: nat, v: nat, flags: nat): (r: (Machine, nat))
    requires 1 <= level <= 4 && CanBuild(m, f, level, v, flags)
    ensures WellSized(r.0) && r.1 < |r.0.mem|
    decreases level
  {
    if level == 1 then (m, f)
    else
      var i := Index(v, level);
      var m' := EnsureTable(m, f, i, flags);
      BuildPath(m', FrameOf(m'.mem[f][i]), level - 1, v, flags)
  }

  /** Tables a walk from f still has to create. */
  function Missing(mem: Memory, f: nat, level: nat, v: nat): nat
    requires 1 <= level <= 4 && f < |mem| && forall g | 0 <= g < |mem| :: |mem[g]| == 512
    decreases level
  {
    if level == 1 then 0
    else
      var e := mem[f][Index(v, level)];
      if !SoftPresent(e) then level - 1
      else if FrameOf(e) < |mem| then Missing(mem, FrameOf(e), level - 1, v)
      else 0
  }

  lemma {:induction false} ClearFrameExists(bits: seq<bool>)
    requires Clear(bits) > 0
    ensures exists f | 0 <= f < |bits| :: !bits[f]
  {
    if bits[0] {
      ClearFrameExists(bits[1..]);
      var f :| 0 <= f < |bits[1..]| && !bits[1..][f];
      assert !bits[f + 1];
    }
  }

  /** With as many free frames as missing tables, the walk can be completed, and it takes
    * exactly that many. */
  lemma {:induction false} EnoughFrames(m: Machine, tables: Tables, f: nat, v: nat, flags: nat)
    requires Good(m, tables) && f in tables && FlagsOk(flags)
    requires Clear(m.frames.bits) >= Missing(m.mem, f, tables[f].level, v)
    ensures CanBuild(m, f, tables[f].level, v, flags)
    ensures Clear(BuildPath(m, f, tables[f].level, v, flags).0.frames.bits) ==
            Clear(m.frames.bits) - Missing(m.mem, f, tables[f].level, v)
    decreases tables[f].level
  {
    hide FrameOf, Bit, MakeEntry;
    var level := tables[f].level;
    if level > 1 {
      var i := Index(v, level);
      assert EntryIn(m, tables, f, i);
      if !SoftPresent(m.mem[f][i]) {
        ClearFrameExists(m.frames.bits);
        HintedSearchIsFullScan(m.frames, []);
        ClearUpdate(m.frames.bits, Grant(m.frames), true);
      }
      EnsureTableKeepsTree(m, tables, f, i, flags);
      var m' := EnsureTable(m, f, i, flags);
      var c := FrameOf(m'.mem[f][i]);
      if !SoftPresent(m.mem[f][i]) {
        NewEntry(Grant(m.frames), flags);
        ZeroEntry();
        assert level > 2 ==> m'.mem[c][Index(v, level - 1)] == 0;
      }
      EnoughFrames(m', GrownTables(m, tables, f, i), c, v, flags);
    }
  }

  /** The tree only grew: by frames that were free, under entries that were absent, and
    * without changing what any table translates. */
  ghost predicate Extends(m: Machine, tables: Tables, m': Machine, tables': Tables)
  {
    && Good(m, tables) && Good(m', tables') && |m'.mem| == |m.mem|
    && (forall t | t in tables :: t in tables' && tables'[t] == tables[t])
    && (forall t | t in tables' && t !in tables :: !m.frames.bits[t])
    && (forall x | 0 <= x < |m.mem| ::
          m'.frames.bits[x] == (m.frames.bits[x] || (x in tables' && x !in tables)))
    && (forall g, j | g in tables && 0 <= j < 512 && HardPresent(m.mem[g][j]) :: m'.mem[g][j] == m.mem[g][j])
    && (forall g, w: nat | g in tables :: KeepsWalk(m, m', g, tables[g].level, w))
  }

  ghost predicate KeepsWalk(m: Machine, m': Machine, g: nat, level: nat, w: nat)
    requires WellSized(m) && WellSized(m') && 1 <= level <= 4 && g < |m.mem| == |m'.mem|
  {
    Walk(m'.mem, g, level, w) == Walk(m.mem, g, level, w)
  }

  lemma EnsureTableExtends(m: Machine, tables: Tables, f: nat, i: nat, flags: nat)
    requires Good(m, tables) && f in tables && tables[f].level > 1 && i < 512 && FlagsOk(flags)
    requires SoftPresent(m.mem[f][i]) || CanGrant(m.frames)
    ensures Extends(m, tables, EnsureTable(m, f, i, flags), GrownTables(m, tables, f, i))
  {
    EnsureTableKeepsTree(m, tables, f, i, flags);
    assert EntryIn(m, tables, f, i);
    var m' := EnsureTable(m, f, i, flags);
    forall g, w: nat | g in tables
      ensures KeepsWalk(m, m', g, tables[g].level, w)
    {
      EnsureTableKeepsWalks(m, tables, f, i, flags, g, w);
    }
  }

  lemma ExtendsTransitive(m: Machine, t: Tables, m1: Machine, t1: Tables, m2: Machine, t2: Tables)
    requires Extends(m, t, m1, t1) && Extends(m1, t1, m2, t2)
    ensures Extends(m, t, m2, t2)
  {
    forall g, w: nat | g in t
      ensures KeepsWalk(m, m2, g, t[g].level, w)
    {
      assert KeepsWalk(m, m1, g, t[g].level, w) && KeepsWalk(m1, m2, g, t1[g].level, w);
    }
  }

  /** The tables once the path is there. */
  ghost function PathTables(m: Machine, tables: Tables, f: nat, v: nat, flags: nat): Tables
    requires Good(m, tables) && f in tables && FlagsOk(flags) && CanBuild(m, f, tables[f].level, v, flags)
    decreases tables[f].level
  {
    if tables[f].level == 1 then tables
    else
      var i := Index(v, tables[f].level);
      EnsureTableKeepsTree(m, tables, f, i, flags);
      var m1 := EnsureTable(m, f, i, flags);
      PathTables(m1, GrownTables(m, tables, f, i), FrameOf(m1.mem[f][i]), v, flags)
  }

  /** Creating the path only extends the tree, and leads to the table it returns. */
  lemma {:induction false} BuildPathKeeps(m: Machine, tables: Tables, f: nat, v: nat, flags: nat)
    returns (tables': Tables)
    requires Good(m, tables) && f in tables && FlagsOk(flags)
    requires CanBuild(m, f, tables[f].level, v, flags)
    ensures var (m', pt) := BuildPath(m, f, tables[f].level, v, flags);
            && Extends(m, tables, m', tables') && tables' == PathTables(m, tables, f, v, flags)
            && pt in tables' && tables'[pt].level == 1
            && Reach(m'.mem, f, tables[f].level, v) == Some(pt)
    decreases tables[f].level
  {
    var level := tables[f].level;
    if level == 1 {
      tables' := tables;
      assert forall g, w: nat | g in tables :: KeepsWalk(m, m, g, tables[g].level, w);
    } else {
      var i := Index(v, level);
      EnsureTableKeepsTree(m, tables, f, i, flags);
      EnsureTableExtends(m, tables, f, i, flags);
      var m1 := EnsureTable(m, f, i, flags);
      var tables1 := GrownTables(m, tables, f, i);
      tables' := BuildPathKeeps(m1, tables1, FrameOf(m1.mem[f][i]), v, flags);
      var m' := BuildPath(m, f, level, v, flags).0;
      ExtendsTransitive(m, tables, m1, tables1, m', tables');
      assert m'.mem[f][i] == m1.mem[f][i];
    }
  }

  /** Lines 219-225: writing a leaf entry changes the one translation that reads it. */
  lemma {:induction false} PutLeafTranslates(m: Machine, tables: Tables, pt: nat, i: nat, e: nat, g: nat, w: nat)
    requires Good(m, tables) && pt in tables && tables[pt].level == 1 && i < 512 && g in tables
    ensures var mem' := Put(m.mem, pt, i, e);
            var level := tables[g].level;
            && Reach(mem', g, level, w) == Reach(m.mem, g, level, w)
            && Walk(mem', g, level, w) ==
               if Reach(m.mem, g, level, w) == Some(pt) && Index(w, 1) == i then LeafOf(e)
               else Walk(m.mem, g, level, w)
    decreases tables[g].level
  {
    var level := tables[g].level;
    if level > 1 {
      var j := Index(w, level);
      assert EntryIn(m, tables, g, j);
      if HardPresent(m.mem[g][j]) {
        PutLeafTranslates(m, tables, pt, i, e, FrameOf(m.mem[g][j]), w);
      }
    }
  }

  lemma PutLeafKeepsTree(m: Machine, tables: Tables, pt: nat, i: nat, e: nat)
    requires Good(m, tables) && pt in tables && tables[pt].level == 1 && i < 512
    requires SoftPresent(e) <==> HardPresent(e)
    ensures Good(m.(mem := Put(m.mem, pt, i, e)), tables)
  {
    var m' := m.(mem := Put(m.mem, pt, i, e));
    forall f, j | f in tables && 0 <= j < 512
      ensures EntryIn(m', tables, f, j)
    {
      assert EntryIn(m, tables, f, j);
    }
  }

  ghost predicate CanMap(m: Machine, v: nat, flags: nat)
  {
    CanBuild(m, ROOT, 4, v, flags)
  }

  /** `mapPg(vaddr, paddr, flags)`. */
  ghost function MapPage(m: Machine, v: nat, paddr: nat, flags: nat): (m': Machine)
    requires CanMap(m, v, flags)
    ensures WellSized(m')
  {
    var (m1, pt) := BuildPath(m, ROOT, 4, v, flags);
    m1.(mem := Put(m1.mem, pt, Index(v, 1), MakeEntry(paddr, flags)))
  }

  /** The page of an address in the 48-bit address space. */
  function PageOf(v: nat): nat
  {
    v / 4096 % 0x1000000000
  }

  /** Two addresses in the same 4 KiB page of the 48-bit address space. */
  predicate SamePage(v: nat, w: nat)
  {
    v / 4096 % 0x1000000000 == w / 4096 % 0x1000000000
  }

  lemma SamePageIndices(v: nat, w: nat)
    ensures SamePage(v, w) <==> forall l | 1 <= l <= 4 :: Index(v, l) == Index(w, l)
  {
    PageDigits(v);
    PageDigits(w);
    DigitsUnique(Index(v, 1), Index(v, 2), Index(v, 3), Index(v, 4),
                 Index(w, 1), Index(w, 2), Index(w, 3), Index(w, 4));
  }

  function FromDigits(d1: nat, d2: nat, d3: nat, d4: nat): nat
  {
    d1 + 512 * (d2 + 512 * (d3 + 512 * d4))
  }

  lemma DigitUnique(a: nat, x: int, b: nat, y: int)
    requires a < 512 && b < 512
    ensures a + 512 * x == b + 512 * y <==> a == b && x == y
  {
  }

  lemma DigitsUnique(a1: nat, a2: nat, a3: nat, a4: nat, b1: nat, b2: nat, b3: nat, b4: nat)
    requires a1 < 512 && a2 < 512 && a3 < 512 && a4 < 512 && b1 < 512 && b2 < 512 && b3 < 512 && b4 < 512
    ensures FromDigits(a1, a2, a3, a4) == FromDigits(b1, b2, b3, b4)
            <==> a1 == b1 && a2 == b2 && a3 == b3 && a4 == b4
  {
    DigitUnique(a1, a2 + 512 * (a3 + 512 * a4), b1, b2 + 512 * (b3 + 512 * b4));
    DigitUnique(a2, a3 + 512 * a4, b2, b3 + 512 * b4);
    DigitUnique(a3, a4, b3, b4);
  }

  /** The four indices are the base-512 digits of the page number. */
  lemma PageDigits(v: nat)
    ensures v / 4096 % 0x1000000000 == FromDigits(Index(v, 1), Index(v, 2), Index(v, 3), Index(v, 4))
  {
    var p := v / 4096;
    Regroup(v, 4096, 0x200000);
    Regroup(v, 0x200000, 0x40000000);
    Regroup(v, 0x40000000, 0x8000000000);
    Regroup(v, 0x8000000000, 0x1000000000000);
    var q := v / 0x1000000000000;
    assert p == FromDigits(Index(v, 1), Index(v, 2), Index(v, 3), Index(v, 4) + 512 * q);
    assert p == FromDigits(Index(v, 1), Index(v, 2), Index(v, 3), Index(v, 4)) + 0x1000000000 * q;
    RemainderOf(FromDigits(Index(v, 1), Index(v, 2), Index(v, 3), Index(v, 4)), q);
  }

  lemma Regroup(v: nat, d: nat, e: nat)
    requires d > 0 && e == 512 * d
    ensures v / d == 512 * (v / e) + v / d % 512
  {
    var q, r := v / d, v % d;
    var a, b := q / 512, q % 512;
    SplitProduct(d, a, b);
    DivUnique(v, e, a, d * b + r);
  }

  lemma SplitProduct(d: nat, a: int, b: nat)
    requires b < 512
    ensures d * (512 * a + b) == 512 * d * a + d * b
    ensures 0 <= d * b <= 511 * d
  {
  }

  lemma DivUnique(x: int, d: int, q: int, r: int)
    requires d > 0 && 0 <= r < d && x == d * q + r
    ensures x / d == q
  {
    var k := x / d - q;
    assert d * k == d * (x / d) - d * q;
    assert k >= 1 ==> d * k >= d;
    assert k <= -1 ==> d * k <= -d;
  }

  lemma RemainderOf(r: nat, q: nat)
    requires r < 0x1000000000
    ensures (r + 0x1000000000 * q) % 0x1000000000 == r
  {
  }

  function Translate(mem: Memory, v: nat): Translation
    requires ROOT < |mem| && forall g | 0 <= g < |mem| :: |mem[g]| == 512
  {
    Walk(mem, ROOT, 4, v)
  }

  /** After mapPg the page of v translates to the given frame with the given flags, every
    * other page translates as before, and the tables are still a tree of distinct frames
    * in use, with no frame taken except for new tables. */
  lemma MapPageChangesOneTranslation(m: Machine, tables: Tables, v: nat, paddr: nat, flags: nat)
    returns (tables': Tables)
    requires Good(m, tables) && FlagsOk(flags) && CanMap(m, v, flags)
    ensures var m' := MapPage(m, v, paddr, flags);
            && Good(m', tables') && |m'.mem| == |m.mem| && tables' == PathTables(m, tables, ROOT, v, flags)
            && (forall t | t in tables :: t in tables' && tables'[t] == tables[t])
            && (forall t | t in tables' && t !in tables :: !m.frames.bits[t])
            && (forall x | 0 <= x < |m.mem| ::
                  m'.frames.bits[x] == (m.frames.bits[x] || (x in tables' && x !in tables)))
            && (forall w: nat :: Translate(m'.mem, w) ==
                  if SamePage(v, w) then Page(paddr / PAGE_SIZE % FIELD, flags) else Translate(m.mem, w))
  {
    tables' := BuildPathKeeps(m, tables, ROOT, v, flags);
    var (m1, pt) := BuildPath(m, ROOT, 4, v, flags);
    var e := MakeEntry(paddr, flags);
    EntryRoundTrip(paddr, flags);
    PutLeafKeepsTree(m1, tables', pt, Index(v, 1), e);
    forall w: nat
      ensures Translate(MapPage(m, v, paddr, flags).mem, w) ==
              if SamePage(v, w) then Page(paddr / PAGE_SIZE % FIELD, flags) else Translate(m.mem, w)
    {
      PutLeafTranslates(m1, tables', pt, Index(v, 1), e, ROOT, w);
      SamePageReach(m1, tables', v, w, pt);
      assert KeepsWalk(m, m1, ROOT, tables[ROOT].level, w);
    }
  }

  // ---------- Who may pass ----------

  /** No entry of a page directory lets user code through, but possibly entry j of d. */
  ghost predicate ShutBut(m: Machine, tables: Tables, d: nat, j: nat)
  {
    forall f, i: nat | f in tables && tables[f].level == 2 && i < 512 && !(f == d && i == j) :: ShutAt(m, f, i)
  }

  ghost predicate ShutAt(m: Machine, f: nat, i: nat)
  {
    f < |m.mem| && i < |m.mem[f]| && !Bit(m.mem[f][i], USER_BIT)
  }

  lemma ZeroShut()
    ensures !Bit(0, USER_BIT)
  {
    assert !Bit(0, 1) by { assert !Bit(0, 0); }
  }

  /** A new table under entry i of f opens at most that entry, and only with the user flag. */
  lemma EnsureTableShut(m: Machine, tables: Tables, f: nat, i: nat, flags: nat, d: nat, j: nat)
    requires Good(m, tables) && f in tables && tables[f].level > 1 && i < 512 && FlagsOk(flags)
    requires SoftPresent(m.mem[f][i]) || CanGrant(m.frames)
    requires ShutBut(m, tables, d, j)
    requires tables[f].level == 2 && Bit(flags, USER_BIT) ==> f == d && i == j
    ensures ShutBut(EnsureTable(m, f, i, flags), GrownTables(m, tables, f, i), d, j)
  {
    hide FrameOf, MakeEntry;
    if !SoftPresent(m.mem[f][i]) {
      var n := Grant(m.frames);
      ZeroShut();
      EntryRoundTrip(PAGE_SIZE * n, flags);
      var m' := EnsureTable(m, f, i, flags);
      var tables' := GrownTables(m, tables, f, i);
      forall g, l: nat | g in tables' && tables'[g].level == 2 && l < 512 && !(g == d && l == j)
        ensures ShutAt(m', g, l)
      {
        if g == n {
          assert m'.mem[g][l] == 0;
        } else if g != f || l != i {
          assert ShutAt(m, g, l);
        }
      }
    }
  }

  /** Mapping without the user flag opens nothing. */
  lemma {:induction false} BuildPathShut(m: Machine, tables: Tables, f: nat, v: nat, flags: nat, d: nat, j: nat)
    requires Good(m, tables) && f in tables && FlagsOk(flags) && CanBuild(m, f, tables[f].level, v, flags)
    requires ShutBut(m, tables, d, j) && !Bit(flags, USER_BIT)
    ensures ShutBut(BuildPath(m, f, tables[f].level, v, flags).0, PathTables(m, tables, f, v, flags), d, j)
    decreases tables[f].level
  {
    hide FrameOf, MakeEntry, Bit, ShutBut;
    if tables[f].level > 1 {
      var i := Index(v, tables[f].level);
      EnsureTableKeepsTree(m, tables, f, i, flags);
      EnsureTableShut(m, tables, f, i, flags, d, j);
      var m1 := EnsureTable(m, f, i, flags);
      BuildPathShut(m1, GrownTables(m, tables, f, i), FrameOf(m1.mem[f][i]), v, flags, d, j);
    }
  }

  /** The page directory on the walk of v. */
  function DirectoryOf(mem: Memory, f: nat, level: nat, v: nat): (d: nat)
    requires 2 <= level <= 4 && f < |mem| && forall g | 0 <= g < |mem| :: |mem[g]| == 512
    decreases level
  {
    if level == 2 then f
    else
      var c := FrameOf(mem[f][Index(v, level)]);
      if c < |mem| then DirectoryOf(mem, c, level - 1, v) else 0
  }

  /** Nothing is open at all. */
  ghost predicate Shut(m: Machine, tables: Tables)
  {
    ShutBut(m, tables, |m.mem|, 0)
  }

  lemma ShutAnyway(m: Machine, tables: Tables, d: nat, j: nat)
    requires Good(m, tables) && Shut(m, tables)
    ensures ShutBut(m, tables, d, j)
  {
    hide Bit;
  }

  /** Mapping with the user flag opens at most one entry of the directory on the walk. */
  lemma {:induction false} BuildPathOpens(m: Machine, tables: Tables, f: nat, v: nat, flags: nat)
    requires Good(m, tables) && f in tables && tables[f].level >= 2 && FlagsOk(flags)
    requires CanBuild(m, f, tables[f].level, v, flags) && Shut(m, tables)
    ensures var m' := BuildPath(m, f, tables[f].level, v, flags).0;
            && f < |m'.mem|
            && ShutBut(m', PathTables(m, tables, f, v, flags), DirectoryOf(m'.mem, f, tables[f].level, v), Index(v, 2))
    decreases tables[f].level
  {
    hide FrameOf, MakeEntry, Bit, ShutBut, Walk, Reach, Put, Zeros;
    var level := tables[f].level;
    var i := Index(v, level);
    EnsureTableKeepsTree(m, tables, f, i, flags);
    var m1, tables1 := EnsureTable(m, f, i, flags), GrownTables(m, tables, f, i);
    var c := FrameOf(m1.mem[f][i]);
    if level == 2 {
      ShutAnyway(m, tables, f, i);
      EnsureTableShut(m, tables, f, i, flags, f, i);
    } else {
      EnsureTableShut(m, tables, f, i, flags, |m.mem|, 0);
      BuildPathOpens(m1, tables1, c, v, flags);
      EntryStays(m1, tables1, f, i, c, v, flags);
    }
  }

  lemma EntryStays(m: Machine, tables: Tables, f: nat, i: nat, c: nat, v: nat, flags: nat)
    requires Good(m, tables) && c in tables && FlagsOk(flags) && CanBuild(m, c, tables[c].level, v, flags)
    requires f in tables && i < 512 && HardPresent(m.mem[f][i])
    ensures var m' := BuildPath(m, c, tables[c].level, v, flags).0;
            |m'.mem| == |m.mem| && m'.mem[f][i] == m.mem[f][i]
  {
    hide FrameOf, MakeEntry, Bit;
    var _ := BuildPathKeeps(m, tables, c, v, flags);
  }

  lemma MapPageOpens(m: Machine, tables: Tables, v: nat, paddr: nat, flags: nat)
    requires Good(m, tables) && FlagsOk(flags) && CanMap(m, v, flags) && Shut(m, tables)
    ensures var m' := MapPage(m, v, paddr, flags);
            && ROOT < |m'.mem|
            && ShutBut(m', PathTables(m, tables, ROOT, v, flags), DirectoryOf(m'.mem, ROOT, 4, v), Index(v, 2))
  {
    hide FrameOf, MakeEntry, Bit, ShutBut;
    BuildPathOpens(m, tables, ROOT, v, flags);
    var tables' := BuildPathKeeps(m, tables, ROOT, v, flags);
    var (m1, pt) := BuildPath(m, ROOT, 4, v, flags);
    var e := MakeEntry(paddr, flags);
    PutLeafShut(m1, tables', pt, Index(v, 1), e, DirectoryOf(m1.mem, ROOT, 4, v), Index(v, 2));
    PutLeafDirectory(m1, tables', pt, Index(v, 1), e, ROOT, v);
  }

  /** Writing a leaf changes no directory on any walk. */
  lemma {:induction false} PutLeafDirectory(m: Machine, tables: Tables, pt: nat, i: nat, e: nat, g: nat, v: nat)
    requires Good(m, tables) && pt in tables && tables[pt].level == 1 && i < 512 && g in tables && tables[g].level >= 2
    requires Reach(m.mem, g, tables[g].level, v).Some?
    ensures DirectoryOf(Put(m.mem, pt, i, e), g, tables[g].level, v) == DirectoryOf(m.mem, g, tables[g].level, v)
    decreases tables[g].level
  {
    hide FrameOf, Bit;
    var level := tables[g].level;
    if level > 2 {
      assert EntryIn(m, tables, g, Index(v, level));
      PutLeafDirectory(m, tables, pt, i, e, FrameOf(m.mem[g][Index(v, level)]), v);
    }
  }

  lemma MapPageShut(m: Machine, tables: Tables, v: nat, paddr: nat, flags: nat, d: nat, j: nat)
    requires Good(m, tables) && FlagsOk(flags) && CanMap(m, v, flags)
    requires ShutBut(m, tables, d, j) && !Bit(flags, USER_BIT)
    ensures ShutBut(MapPage(m, v, paddr, flags), PathTables(m, tables, ROOT, v, flags), d, j)
  {
    hide FrameOf, MakeEntry, Bit;
    BuildPathShut(m, tables, ROOT, v, flags, d, j);
    var tables' := BuildPathKeeps(m, tables, ROOT, v, flags);
    var (m1, pt) := BuildPath(m, ROOT, 4, v, flags);
    PutLeafShut(m1, tables', pt, Index(v, 1), MakeEntry(paddr, flags), d, j);
  }

  lemma PutLeafShut(m: Machine, tables: Tables, pt: nat, i: nat, e: nat, d: nat, j: nat)
    requires Good(m, tables) && pt in tables && tables[pt].level == 1 && i < 512 && ShutBut(m, tables, d, j)
    ensures ShutBut(m.(mem := Put(m.mem, pt, i, e)), tables, d, j)
  {
    hide FrameOf, Bit;
    var m' := m.(mem := Put(m.mem, pt, i, e));
    forall f, l: nat | f in tables && tables[f].level == 2 && l < 512 && !(f == d && l == j)
      ensures ShutAt(m', f, l)
    {
      assert ShutAt(m, f, l);
    }
  }

  lemma {:induction false} ReachFollowsIndices(mem: Memory, f: nat, level: nat, v: nat, w: nat)
    requires 1 <= level <= 4 && f < |mem| && forall g | 0 <= g < |mem| :: |mem[g]| == 512
    requires forall l | 2 <= l <= level :: Index(v, l) == Index(w, l)
    ensures Reach(mem, f, level, v) == Reach(mem, f, level, w)
    decreases level
  {
    if level > 1 {
      var e := mem[f][Index(v, level)];
      if HardPresent(e) && FrameOf(e) < |mem| {
        ReachFollowsIndices(mem, FrameOf(e), level - 1, v, w);
      }
    }
  }

  lemma SamePageReach(m: Machine, tables: Tables, v: nat, w: nat, pt: nat)
    requires Good(m, tables) && Reach(m.mem, ROOT, 4, v) == Some(pt)
    ensures SamePage(v, w) <==> Reach(m.mem, ROOT, 4, w) == Some(pt) && Index(v, 1) == Index(w, 1)
  {
    SamePageIndices(v, w);
    if SamePage(v, w) {
      ReachFollowsIndices(m.mem, ROOT, 4, v, w);
    }
    if Reach(m.mem, ROOT, 4, w) == Some(pt) && Index(v, 1) == Index(w, 1) {
      ReachUnique(m, tables, ROOT, ROOT, 4, v, w);
    }
  }
}
