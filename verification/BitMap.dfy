/** The packed bit map of src/kernel/libk/kdsa.cpp: bit i is bit 7 - i % 8 of byte i / 8. */
module BitMaps {

  /** 0b10000000 >> k. */
  function Mask(k: nat): bv8
  {
    if k == 0 then 0x80 else Mask(k - 1) >> 1
  }

  predicate Bit(b: bv8, k: nat)
    requires k < 8
  {
    b & Mask(k) > 0
  }

  /** The bits a buffer holds, in index order. */
  function Unpack(buf: seq<bv8>): (bits: seq<bool>)
    ensures |bits| == 8 * |buf|
  {
    seq(8 * |buf|, i requires 0 <= i < 8 * |buf| => Bit(buf[i / 8], i % 8))
  }

  /** What `set` does to the byte that holds the bit. */
  function SetBit(b: bv8, k: nat, val: bool): bv8
    requires k < 8
  {
    if val then (b & !Mask(k)) | Mask(k) else b & !Mask(k)
  }

  lemma SetBitChangesOne(b: bv8, k: nat, val: bool, j: nat)
    requires k < 8 && j < 8
    ensures Bit(SetBit(b, k, val), j) == if j == k then val else Bit(b, j)
  {
    MaskCases(k);
    MaskCases(j);
  }

  lemma MaskCases(k: nat)
    requires k < 8
    ensures Mask(k) == (match k case 0 => 0x80 case 1 => 0x40 case 2 => 0x20 case 3 => 0x10
                                case 4 => 0x08 case 5 => 0x04 case 6 => 0x02 case _ => 0x01)
  {
    assert Mask(2) == 0x20;
    assert Mask(4) == 0x08;
    assert Mask(6) == 0x02;
  }

  /** Writing one byte back changes exactly one bit of the whole map. */
  lemma SetBitUnpack(buf: seq<bv8>, idx: nat, val: bool)
    requires idx < 8 * |buf|
    ensures Unpack(buf[idx / 8 := SetBit(buf[idx / 8], idx % 8, val)]) == Unpack(buf)[idx := val]
  {
    var buf' := buf[idx / 8 := SetBit(buf[idx / 8], idx % 8, val)];
    forall i | 0 <= i < 8 * |buf|
      ensures Unpack(buf')[i] == Unpack(buf)[idx := val][i]
    {
      SetBitChangesOne(buf[idx / 8], idx % 8, val, i % 8);
      assert i == 8 * (i / 8) + i % 8 && idx == 8 * (idx / 8) + idx % 8;
    }
  }

  class BitMap {
    const length: nat
    const buffer: array<bv8>

    ghost function Bits(): (bits: seq<bool>)
      reads buffer
      ensures |bits| == 8 * buffer.Length
    {
      Unpack(buffer[..])
    }

    /** `initBitMap`: len / 8 zeroed bytes, while `length` keeps the number of bits. */
    constructor (len: nat)
      ensures length == len && buffer.Length == len / 8 && fresh(buffer)
      ensures Bits() == seq(8 * (len / 8), _ => false)
    {
      length := len;
      buffer := new bv8[len / 8](_ => 0);
      new;
      assert forall k | 0 <= k < 8 :: !Bit(0, k);
    }

    method Get(idx: nat) returns (val: bool)
      requires idx < 8 * buffer.Length
      ensures val == Bits()[idx]
    {
      var bitIdx := Mask(idx % 8);
      val := buffer[idx / 8] & bitIdx > 0;
    }

    /** The two in-place updates of the byte. */
    method WriteBit(byte: nat, k: nat, val: bool)
      requires byte < buffer.Length && k < 8
      modifies buffer
      ensures buffer[..] == old(buffer[..])[byte := SetBit(old(buffer[byte]), k, val)]
    {
      buffer[byte] := buffer[byte] & !Mask(k);
      if val {
        buffer[byte] := buffer[byte] | Mask(k);
      }
    }

    /** The guard compares with length * 8, not with length: a call it lets through
      * must still name a bit inside the buffer. */
    method Set(idx: nat, val: bool) returns (ok: bool)
      requires idx <= length * 8 ==> idx < 8 * buffer.Length
      modifies buffer
      ensures ok == (idx <= length * 8)
      ensures Bits() == if ok then old(Bits())[idx := val] else old(Bits())
    {
      if idx > length * 8 {
        return false;
      }
      SetBitUnpack(buffer[..], idx, val);
      WriteBit(idx / 8, idx % 8, val);
      return true;
    }
  }
}
