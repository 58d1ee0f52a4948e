/** Printing numbers: `itoa` (src/kernel/libk/kstdlib.cpp) and `printHex`
  * (src/kernel/libk/kstdio.cpp). Characters are bytes. */
module Numbers {
  import opened Options

  const INT_MIN := -0x8000_0000
  const ZERO := 48   // '0'
  const MINUS: bv8 := 45

  // ---------- reverse ----------

  function Reversed(s: seq<bv8>): (r: seq<bv8>)
    ensures |r| == |s|
  {
    if s == [] then [] else Reversed(s[1..]) + [s[0]]
  }

  lemma {:induction false} ReversedAt(s: seq<bv8>, k: nat)
    requires k < |s|
    ensures Reversed(s)[k] == s[|s| - 1 - k]
  {
    if k < |s| - 1 {
      ReversedAt(s[1..], k);
    }
  }

  function Xor(x: bv8, y: bv8): bv8
  {
    x ^ y
  }

  lemma XorSwap(x: bv8, y: bv8)
    ensures Xor(Xor(x, y), Xor(y, Xor(x, y))) == y && Xor(y, Xor(x, y)) == x
  {
  }

  /** Three exclusive ors exchange two different cells. */
  method SwapCells(str: array<bv8>, i: nat, j: nat)
    requires i < j < str.Length
    modifies str
    ensures str[i] == old(str[j]) && str[j] == old(str[i])
    ensures forall k | 0 <= k < str.Length && k != i && k != j :: str[k] == old(str[k])
  {
    hide Xor;
    XorSwap(str[i], str[j]);
    str[i] := Xor(str[i], str[j]);
    str[j] := Xor(str[j], str[i]);
    str[i] := Xor(str[i], str[j]);
  }

  /** Cell k once the outer i pairs of the first n cells have been exchanged. */
  function Cell(s: seq<bv8>, n: nat, i: nat, k: nat): bv8
    requires k < |s| && n <= |s|
  {
    if k < n && (k < i || k > n - 1 - i) then s[n - 1 - k] else s[k]
  }

  /** `reverse(str, length)`. */
  method Reverse(str: array<bv8>, length: nat)
    requires length <= str.Length
    modifies str
    ensures str[..length] == Reversed(old(str[..length]))
    ensures str[length..] == old(str[length..])
  {
    ghost var s := str[..];
    var i, last := 0, length - 1;
    while i < last
      invariant 0 <= i <= length && last == length - 1 - i
      invariant forall k | 0 <= k < str.Length :: str[k] == Cell(s, length, i, k)
      decreases last - i
    {
      assert str[i] == Cell(s, length, i, i) && str[last] == Cell(s, length, i, last);
      SwapCells(str, i, last);
      i, last := i + 1, last - 1;
    }
    ghost var front := s[..length];
    forall k | 0 <= k < length
      ensures str[k] == Reversed(front)[k]
    {
      ReversedAt(front, k);
      assert str[k] == Cell(s, length, i, k);
    }
    assert forall k | length <= k < str.Length :: str[k] == s[k];
  }

  // ---------- itoa ----------

  /** Division and remainder that truncate toward zero. */
  function TruncDiv(a: int, b: int): int
    requires b > 0
  {
    if a >= 0 then a / b else -(-a / b)
  }

  function TruncMod(a: int, b: int): int
    requires b > 0
  {
    a - b * TruncDiv(a, b)
  }

  /** `-num` in 32 bits. */
  function Neg32(n: int): int
  {
    if n == INT_MIN then n else -n
  }

  function DigitChar(rem: int): bv8
    requires -10 < rem < 10
  {
    (rem + ZERO) as bv8
  }

  /** The characters the digit loop stores, lowest digit first; `sign` is that of the operand. */
  function LowFirst(sign: int, m: nat): seq<bv8>
    requires sign == 1 || sign == -1
  {
    if m == 0 then [] else [DigitChar(sign * (m % 10))] + LowFirst(sign, m / 10)
  }

  /** What `itoa(num, 10)` leaves before the terminator. */
  function Numeral(num: int): seq<bv8>
    requires INT_MIN <= num <= 0x7fff_ffff
  {
    if num == 0 then [ZERO as bv8]
    else if num > 0 then Reversed(LowFirst(1, num))
    else if num == INT_MIN then Reversed(LowFirst(-1, 0x8000_0000) + [MINUS])
    else Reversed(LowFirst(1, -num) + [MINUS])
  }

  /** Reading a decimal numeral. */
  predicate IsDigit(c: bv8)
  {
    48 <= c <= 57
  }

  function DigitValue(c: bv8): nat
    requires IsDigit(c)
  {
    (c - 48) as nat
  }

  function Value(s: seq<bv8>): (v: Option<nat>)
  {
    if s == [] then Some(0)
    else
      var front := Value(s[..|s| - 1]);
      if front.None? || !IsDigit(s[|s| - 1]) then None
      else Some(10 * front.value + DigitValue(s[|s| - 1]))
  }

  function Parse(s: seq<bv8>): (v: Option<int>)
  {
    if s == [] then None
    else
      var v := Value(if s[0] == MINUS then s[1..] else s);
      if v.None? then None else Some(if s[0] == MINUS then -(v.value as int) else v.value as int)
  }

  lemma DigitRoundTrip(d: nat)
    requires d < 10
    ensures IsDigit(DigitChar(d)) && DigitValue(DigitChar(d)) == d && DigitChar(d) != MINUS
  {
    match d
    case 0 => assert DigitChar(0) == 48;
    case 1 => assert DigitChar(1) == 49;
    case 2 => assert DigitChar(2) == 50;
    case 3 => assert DigitChar(3) == 51;
    case 4 => assert DigitChar(4) == 52;
    case 5 => assert DigitChar(5) == 53;
    case 6 => assert DigitChar(6) == 54;
    case 7 => assert DigitChar(7) == 55;
    case 8 => assert DigitChar(8) == 56;
    case _ => assert DigitChar(9) == 57;
  }

  lemma {:induction false} ValueOfLowFirst(m: nat)
    ensures Value(Reversed(LowFirst(1, m))) == Some(m)
  {
    if m != 0 {
      ValueOfLowFirst(m / 10);
      DigitRoundTrip(m % 10);
      var s := LowFirst(1, m);
      assert s[1..] == LowFirst(1, m / 10);
      var r := Reversed(s);
      assert r[..|r| - 1] == Reversed(s[1..]) && r[|r| - 1] == s[0];
    }
  }

  lemma ReversedSnoc(s: seq<bv8>, c: bv8)
    ensures Reversed(s + [c]) == [c] + Reversed(s)
    decreases |s|
  {
    if s != [] {
      assert (s + [c])[1..] == s[1..] + [c];
      ReversedSnoc(s[1..], c);
    }
  }

  lemma {:induction false} FirstDigit(m: nat)
    requires m > 0
    ensures LowFirst(1, m) != [] && Reversed(LowFirst(1, m))[0] != MINUS
  {
    var s := LowFirst(1, m);
    assert s[1..] == LowFirst(1, m / 10);
    if m / 10 == 0 {
      DigitRoundTrip(m % 10);
    } else {
      FirstDigit(m / 10);
    }
  }

  /** Below zero the loop's remainders are negative and its characters are no digits. */
  lemma NegativeIsNoNumeral(m: nat)
    requires m % 10 == 8
    ensures Value(Reversed(LowFirst(-1, m))) == None
  {
    var s := LowFirst(-1, m);
    EightBelow();
    assert s[0] == DigitChar(-8);
    var r := Reversed(s);
    assert r[|r| - 1] == s[0];
  }

  lemma EightBelow()
    ensures DigitChar(-8) == 40 && !IsDigit(DigitChar(-8))
  {
  }

  /** For every 32-bit number the result of `itoa` reads back as that number, except for the
    * smallest one, whose negation does not fit. */
  lemma ItoaParsesIff(num: int)
    requires INT_MIN <= num <= 0x7fff_ffff
    ensures Parse(Numeral(num)) == Some(num) <==> num != INT_MIN
  {
    hide LowFirst, Reversed, Value;
    if num == 0 {
      ParseZero();
    } else if num > 0 {
      ValueOfLowFirst(num);
      FirstDigit(num);
    } else if num == INT_MIN {
      ReversedSnoc(LowFirst(-1, -num), MINUS);
      NegativeIsNoNumeral(-num);
      assert ([MINUS] + Reversed(LowFirst(-1, -num)))[1..] == Reversed(LowFirst(-1, -num));
    } else {
      ReversedSnoc(LowFirst(1, -num), MINUS);
      ValueOfLowFirst(-num);
      assert ([MINUS] + Reversed(LowFirst(1, -num)))[1..] == Reversed(LowFirst(1, -num));
    }
  }

  lemma ParseZero()
    ensures Parse(Numeral(0)) == Some(0)
  {
    DigitRoundTrip(0);
    assert Numeral(0)[..0] == [];
  }

  function Pow10(k: nat): (p: nat)
    ensures p > 0
  {
    if k == 0 then 1 else 10 * Pow10(k - 1)
  }

  lemma {:induction false} DigitCount(sign: int, m: nat, k: nat)
    requires (sign == 1 || sign == -1) && m < Pow10(k)
    ensures |LowFirst(sign, m)| <= k
    decreases k
  {
    if m != 0 {
      DigitCount(sign, m / 10, k - 1);
    }
  }

  lemma TenDigits(sign: int, m: nat)
    requires (sign == 1 || sign == -1) && m <= 0x8000_0000
    ensures |LowFirst(sign, m)| <= 10
  {
    assert Pow10(2) == 100;
    assert Pow10(4) == 10000;
    assert Pow10(6) == 1000000;
    assert Pow10(8) == 100000000;
    DigitCount(sign, m, 10);
  }

  /** The digit loop: at most ten characters, lowest digit first. */
  method StoreDigits(num: int, str: array<bv8>) returns (i: nat)
    requires INT_MIN <= num <= 0x7fff_ffff && str.Length == 20
    modifies str
    ensures var sign := if num >= 0 then 1 else -1;
            i <= 10 && str[..i] == LowFirst(sign, sign * num)
  {
    hide TruncMod, TruncDiv, DigitChar, LowFirst;
    ghost var sign := if num >= 0 then 1 else -1;
    ghost var m := sign * num;
    ghost var all := LowFirst(sign, m);
    TenDigits(sign, m);
    i := 0;
    var n := num;
    while n != 0
      invariant m >= 0 && n == Signed(sign, m) && i <= |all| <= 10 && all == str[..i] + LowFirst(sign, m)
      decreases m
    {
      TruncStep(sign, m);
      LowFirstStep(sign, m);
      var rem := TruncMod(n, 10);
      str[i] := DigitChar(rem);
      assert str[..i + 1] == str[..i] + [DigitChar(rem)];
      i := i + 1;
      n := TruncDiv(n, 10);
      m := m / 10;
    }
    LowFirstEnd(sign);
  }

  function Signed(sign: int, m: nat): int
  {
    if sign == 1 then m as int else -(m as int)
  }

  lemma TruncStep(sign: int, m: nat)
    requires sign == 1 || sign == -1
    ensures TruncMod(Signed(sign, m), 10) == Signed(sign, m % 10)
    ensures TruncDiv(Signed(sign, m), 10) == Signed(sign, m / 10)
  {
  }

  lemma LowFirstStep(sign: int, m: nat)
    requires (sign == 1 || sign == -1) && m > 0
    ensures LowFirst(sign, m) == [DigitChar(Signed(sign, m % 10))] + LowFirst(sign, m / 10)
  {
  }

  lemma LowFirstEnd(sign: int)
    requires sign == 1 || sign == -1
    ensures LowFirst(sign, 0) == []
  {
  }

  /** `itoa(num, 10)`: the numeral and a terminator, inside the 20 bytes. */
  method Itoa(num: int, str: array<bv8>) returns (length: nat)
    requires INT_MIN <= num <= 0x7fff_ffff && str.Length == 20
    modifies str
    ensures length < 20 && str[..length] == Numeral(num) && str[length] == 0
  {
    hide LowFirst, Reversed;
    if num == 0 {
      str[0], str[1] := ZERO as bv8, 0;
      return 1;
    }
    var isNegative := num < 0;
    var n := if isNegative then Neg32(num) else num;
    var i := StoreDigits(n, str);
    ghost var digits := str[..i];
    if isNegative {
      str[i] := MINUS;
      i := i + 1;
      assert str[..i] == digits + [MINUS];
    }
    str[i] := 0;
    ghost var before := str[..];
    Reverse(str, i);
    assert before[i..][0] == str[i..][0];
    length := i;
  }

  // ---------- printHex ----------

  const INT64_MAX := 0x7fff_ffff_ffff_ffff

  function HexChar(d: nat): (c: nat)
    requires d < 16
    ensures 48 <= c <= 70
  {
    if d < 10 then d + 0x30 else d + 0x37
  }

  /** The hexadecimal digits of a number, most significant first, without leading zeros. */
  function HexDigits(n: nat): seq<nat>
  {
    if n == 0 then [] else HexDigits(n / 16) + [HexChar(n % 16)]
  }

  /** Reading a hexadecimal numeral: digits 0 to 9 and letters A to F. */
  function HexDigitValue(c: nat): Option<nat>
  {
    if 48 <= c <= 57 then Some(c - 48) else if 65 <= c <= 70 then Some(c - 55) else None
  }

  function HexValue(s: seq<nat>): (v: Option<nat>)
  {
    if s == [] then Some(0)
    else
      var front, d := HexValue(s[..|s| - 1]), HexDigitValue(s[|s| - 1]);
      if front.None? || d.None? then None else Some(16 * front.value + d.value)
  }

  /** The digits read back as the number, without a leading zero. */
  lemma {:induction false} HexReadsBack(n: nat)
    ensures HexValue(HexDigits(n)) == Some(n) && (n > 0 ==> HexDigits(n) != [] && HexDigits(n)[0] != 48)
    decreases n
  {
    if n != 0 {
      HexReadsBack(n / 16);
      var s := HexDigits(n);
      assert s[..|s| - 1] == HexDigits(n / 16);
    }
  }

  /** The accumulator of the first loop: two decimal digits for every hexadecimal one. */
  function Accumulate(n: nat, hex: nat): (r: nat)
    ensures r >= hex
  {
    if n == 0 then hex else Accumulate(n / 16, hex * 100 + HexChar(n % 16))
  }

  /** What the second loop prints from an accumulator. */
  function Emit(hex: nat): seq<nat>
  {
    if hex == 0 then [] else [hex % 100] + Emit(hex / 100)
  }

  lemma {:induction false} EmitAccumulate(n: nat, hex: nat)
    ensures Emit(Accumulate(n, hex)) == HexDigits(n) + Emit(hex)
    decreases n
  {
    if n != 0 {
      var c := HexChar(n % 16);
      EmitAccumulate(n / 16, hex * 100 + c);
      assert Emit(hex * 100 + c) == [c] + Emit(hex);
      assert HexDigits(n / 16) + ([c] + Emit(hex)) == (HexDigits(n / 16) + [c]) + Emit(hex);
    }
  }

  function Power(b: nat, k: nat): nat
  {
    if k == 0 then 1 else b * Power(b, k - 1)
  }

  lemma {:induction false} AccumulatorBelow(n: nat, hex: nat, k: nat)
    requires n < Power(16, k)
    ensures Accumulate(n, hex) < (hex + 1) * Power(100, k)
    decreases k
  {
    if n == 0 {
      PowerPositive(100, k);
      ScaleUp(hex + 1, Power(100, k));
    } else {
      var h := hex * 100 + HexChar(n % 16);
      AccumulatorBelow(n / 16, h, k - 1);
      Scale(h + 1, (hex + 1) * 100, Power(100, k - 1));
      PowerStep(hex + 1, k);
    }
  }

  lemma {:induction false} AccumulatorAbove(n: nat, hex: nat, k: nat)
    requires n >= Power(16, k)
    ensures Accumulate(n, hex) >= (hex * 100 + 48) * Power(100, k)
    decreases k
  {
    PowerPositive(16, k);
    var h := hex * 100 + HexChar(n % 16);
    if k > 0 {
      AccumulatorAbove(n / 16, h, k - 1);
      Scale((hex * 100 + 48) * 100, h * 100 + 48, Power(100, k - 1));
      PowerStep(hex * 100 + 48, k);
    }
  }

  lemma {:induction false} PowerPositive(b: nat, k: nat)
    requires b > 0
    ensures Power(b, k) >= 1
  {
    if k > 0 {
      PowerPositive(b, k - 1);
      Scale(1, b, Power(b, k - 1));
    }
  }

  lemma PowerStep(a: nat, k: nat)
    requires k > 0
    ensures a * 100 * Power(100, k - 1) == a * Power(100, k)
  {
  }

  lemma ScaleUp(a: nat, p: nat)
    requires p >= 1
    ensures a <= a * p
  {
  }

  lemma Scale(a: nat, b: nat, p: nat)
    requires a <= b
    ensures a * p <= b * p
  {
  }

  lemma NinePowers()
    ensures Power(16, 9) == 0x10_0000_0000 && Power(100, 9) == 1_000_000_000_000_000_000
  {
    assert Power(16, 3) == 4096 && Power(100, 3) == 1000000 by { assert Power(16, 1) == 16 && Power(100, 1) == 100; }
    assert Power(16, 5) == 0x100000 && Power(100, 5) == 10_000_000_000;
    assert Power(16, 7) == 0x10000000 && Power(100, 7) == 100_000_000_000_000;
  }

  /** The 64-bit accumulator is large enough exactly for the numbers below 16^9. */
  lemma AccumulatorFitsIff(num: nat)
    ensures Accumulate(num, 0) <= INT64_MAX <==> num < 0x10_0000_0000
  {
    NinePowers();
    if num < 0x10_0000_0000 {
      AccumulatorBelow(num, 0, 9);
    } else {
      AccumulatorAbove(num, 0, 9);
    }
  }

  /** `printHex(num)`: "0x0" and then the hexadecimal digits, for every number whose
    * accumulator fits; nothing but "0x0" for numbers that are not positive. */
  method PrintHex(num: int) returns (out: seq<nat>)
    requires num < 0x10_0000_0000
    ensures out == [48, 120, 48] + if num > 0 then HexDigits(num) else []
  {
    out := [48, 120, 48];
    var hex, hexByte := 0, num;
    AccumulatorFitsIff(if num > 0 then num else 0);
    while hexByte > 0
      invariant 0 <= hex <= INT64_MAX
      invariant num > 0 ==> hexByte >= 0 && Accumulate(hexByte, hex) == Accumulate(num, 0) <= INT64_MAX
      invariant num <= 0 ==> hexByte == num && hex == 0
      decreases hexByte
    {
      var remainder := hexByte % 0x10;
      if remainder < 10 {
        remainder := remainder + 0x30;
      } else {
        remainder := remainder + 0x37;
      }
      hex := hex * 100 + remainder;
      hexByte := hexByte / 0x10;
    }
    if num > 0 {
      EmitAccumulate(num, 0);
      assert HexDigits(num) + Emit(0) == HexDigits(num);
    }
    hexByte := hex;
    while hexByte > 0
      invariant hexByte >= 0 && out + Emit(hexByte) == [48, 120, 48] + Emit(hex)
    {
      var hexChar := hexByte % 100;
      out := out + [hexChar];
      hexByte := hexByte / 100;
    }
  }
}
