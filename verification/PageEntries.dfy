/** Page-table entries: the macros of src/kernel/includes/memory.hpp on unsigned words.
  * Shifts and masks of whole bit fields are written as division and remainder, which is
  * what they are on unsigned words; `|` on flags is bitwise. */
module PageEntries {

  const FIELD := 0x10000000000  // 2^40: bits 12..51 hold the frame number
  const PDE_P := 0      // as bit numbers
  const PDE_R := 1
  const PDE_S := 7
  const USER_BIT := 2
  const PDE_U := 4      // as a mask

  /** Bit k of a word. */
  predicate Bit(e: nat, k: nat)
  {
    if k == 0 then e % 2 == 1 else Bit(e / 2, k - 1)
  }

  function Or(a: nat, b: nat): nat
  {
    if a == 0 && b == 0 then 0
    else 2 * Or(a / 2, b / 2) + (if a % 2 == 1 || b % 2 == 1 then 1 else 0)
  }

  /** `getPgFlag(pg, PDE_P)`: it tests `pg & (1 << 1)`, so it reads bit 1, the write flag. */
  predicate SoftPresent(e: nat)
  {
    Bit(e, PDE_R)
  }

  /** What the processor tests: bit 0. */
  predicate HardPresent(e: nat)
  {
    Bit(e, PDE_P)
  }

  /** `getPgAddr`, as a frame number. */
  function FrameOf(e: nat): (f: nat)
    ensures f < FIELD
  {
    e / 4096 % FIELD
  }

  /** `setPgAddr(pg, paddr)`: replaces bits 12..51. */
  function SetPgAddr(e: nat, paddr: nat): nat
  {
    e % 4096 + 4096 * (paddr / 4096 % FIELD) + 4096 * FIELD * (e / (4096 * FIELD))
  }

  /** `setPgFlag(pg, flags)`. */
  function SetPgFlag(e: nat, flags: nat): nat
  {
    Or(e, flags)
  }

  /** Every entry the kernel stores: an address set into a null word, then the flags. */
  function MakeEntry(paddr: nat, flags: nat): nat
  {
    SetPgFlag(SetPgAddr(0, paddr), flags)
  }

  function Pow2(k: nat): (p: nat)
    ensures p > 0
  {
    if k == 0 then 1 else 2 * Pow2(k - 1)
  }

  /** Flags that fit below a field are added to it. */
  lemma {:induction false} OrBelow(hi: nat, flags: nat, k: nat)
    requires flags < Pow2(k)
    ensures Or(hi * Pow2(k), flags) == hi * Pow2(k) + flags
    decreases k
  {
    if k == 0 {
      OrZero(hi);
    } else {
      var a := hi * Pow2(k);
      assert a == 2 * (hi * Pow2(k - 1)) by { MulSwap(hi, Pow2(k - 1)); }
      OrBelow(hi, flags / 2, k - 1);
      assert Or(a, flags) == 2 * Or(a / 2, flags / 2) + flags % 2;
    }
  }

  lemma MulSwap(a: int, b: int)
    ensures a * (2 * b) == 2 * (a * b)
  {
  }

  lemma {:induction false} OrZero(a: nat)
    ensures Or(a, 0) == a
  {
    if a != 0 {
      OrZero(a / 2);
    }
  }

  lemma EntrySum(paddr: nat, flags: nat)
    requires flags < 4096
    ensures MakeEntry(paddr, flags) == 4096 * (paddr / 4096 % FIELD) + flags
  {
    assert Pow2(12) == 4096 by { assert Pow2(4) == 16; assert Pow2(8) == 256; }
    OrBelow(paddr / 4096 % FIELD, flags, 12);
  }

  lemma {:induction false} BitOfSum(hi: nat, lo: nat, k: nat, n: nat)
    requires k < n
    ensures Bit(hi * Pow2(n) + lo, k) == Bit(lo, k)
    decreases k
  {
    assert hi * Pow2(n) == 2 * (hi * Pow2(n - 1)) by { MulSwap(hi, Pow2(n - 1)); }
    if k > 0 {
      BitOfSum(hi, lo / 2, k - 1, n - 1);
      assert (hi * Pow2(n) + lo) / 2 == hi * Pow2(n - 1) + lo / 2;
    }
  }

  lemma FlagBits(f: nat, flags: nat, k: nat)
    requires k < 8
    ensures Bit(4096 * f + flags, k) == Bit(flags, k)
  {
    assert Pow2(8) == 256 by { assert Pow2(4) == 16; }
    BitOfSum(16 * f, flags, k, 8);
  }

  lemma FieldsOfSum(f: nat, flags: nat)
    requires flags < 4096 && f < FIELD
    ensures FrameOf(4096 * f + flags) == f && (4096 * f + flags) % 4096 == flags
  {
  }

  /** Reading an entry back gives the frame and the flags it was made of, so the kernel's
    * presence test and the processor's agree on it exactly when P and R were passed alike. */
  lemma EntryRoundTrip(paddr: nat, flags: nat)
    requires flags < 4096
    ensures var e := MakeEntry(paddr, flags);
            && FrameOf(e) == paddr / 4096 % FIELD
            && e % 4096 == flags
            && (forall k: nat | k < 8 :: Bit(e, k) == Bit(flags, k))
            && ((SoftPresent(e) <==> HardPresent(e)) <==> (Bit(flags, PDE_P) <==> Bit(flags, PDE_R)))
  {
    var f := paddr / 4096 % FIELD;
    EntrySum(paddr, flags);
    FieldsOfSum(f, flags);
    forall k: nat | k < 8
      ensures Bit(MakeEntry(paddr, flags), k) == Bit(flags, k)
    {
      FlagBits(f, flags, k);
    }
  }

  // ---------- Setting a flag in a stored entry ----------

  /** e >> k. */
  function Shift(e: nat, k: nat): nat
  {
    if k == 0 then e else Shift(e / 2, k - 1)
  }

  lemma OrHalves(a: nat, b: nat)
    ensures Or(a, b) / 2 == Or(a / 2, b / 2)
    ensures Or(a, b) % 2 == 1 <==> a % 2 == 1 || b % 2 == 1
  {
  }

  lemma {:induction false} ShiftOr(a: nat, b: nat, k: nat)
    ensures Shift(Or(a, b), k) == Or(Shift(a, k), Shift(b, k))
  {
    if k > 0 {
      OrHalves(a, b);
      ShiftOr(a / 2, b / 2, k - 1);
    }
  }

  lemma {:induction false} BitOr(a: nat, b: nat, k: nat)
    ensures Bit(Or(a, b), k) <==> Bit(a, k) || Bit(b, k)
  {
    OrHalves(a, b);
    if k > 0 {
      BitOr(a / 2, b / 2, k - 1);
    }
  }

  lemma {:induction false} ShiftTwice(e: nat, j: nat, k: nat)
    ensures Shift(Shift(e, j), k) == Shift(e, j + k)
  {
    if j > 0 {
      ShiftTwice(e / 2, j - 1, k);
    }
  }

  lemma ShiftTwo(e: nat)
    ensures Shift(e, 2) == e / 4
  {
    assert Shift(e / 2, 1) == Shift(e / 2 / 2, 0);
    assert e / 2 / 2 == e / 4;
  }

  lemma ShiftFour(e: nat)
    ensures Shift(e, 4) == e / 16
  {
    ShiftTwo(e);
    ShiftTwo(e / 4);
    ShiftTwice(e, 2, 2);
    assert e / 4 / 4 == e / 16;
  }

  lemma ShiftTwelve(e: nat)
    ensures Shift(e, 12) == e / 4096
  {
    ShiftFour(e);
    ShiftFour(e / 16);
    ShiftFour(e / 16 / 16);
    ShiftTwice(e, 4, 4);
    ShiftTwice(e, 8, 4);
    assert e / 16 / 16 == e / 256;
    assert e / 256 / 16 == e / 4096;
  }

  lemma FourBits()
    ensures Shift(4, 12) == 0 && !Bit(4, 0) && !Bit(4, 1) && !Bit(4, 7) && Bit(4, 2)
  {
    ShiftTwelve(4);
    assert !Bit(4, 1) by { assert !Bit(2, 0); }
    assert Bit(4, 2) by { assert Bit(2, 1) by { assert Bit(1, 0); } }
    assert !Bit(0, 1) by { assert !Bit(0, 0); }
    assert !Bit(0, 2);
    assert !Bit(0, 3);
    assert !Bit(0, 4);
    assert !Bit(1, 5);
    assert !Bit(2, 6);
  }

  /** Setting the user flag touches neither the frame nor the bits the walk tests. */
  lemma UserFlagKeepsEntry(e: nat)
    ensures FrameOf(SetPgFlag(e, PDE_U)) == FrameOf(e)
    ensures HardPresent(SetPgFlag(e, PDE_U)) == HardPresent(e) && SoftPresent(SetPgFlag(e, PDE_U)) == SoftPresent(e)
    ensures Bit(SetPgFlag(e, PDE_U), PDE_S) == Bit(e, PDE_S)
    ensures Bit(SetPgFlag(e, PDE_U), USER_BIT)
  {
    hide Or, Shift, Bit;
    FourBits();
    BitOr(e, 4, 0);
    BitOr(e, 4, 1);
    BitOr(e, 4, 7);
    BitOr(e, 4, 2);
    ShiftOr(e, 4, 12);
    OrZero(Shift(e, 12));
    ShiftTwelve(e);
    ShiftTwelve(Or(e, 4));
  }
}
