/** Bytes as the code masks and shifts them, and as numbers.  Each method is one of the
    source's bit expressions; its contract says which number or bit that expression is. */
module Bits {

  type byte = x: int | 0 <= x < 256
  type u32 = x: int | 0 <= x < 0x1_0000_0000
  type i32 = x: int | -0x8000_0000 <= x < 0x8000_0000

  const U32_MAX: u32 := 0xFFFF_FFFF

  function Pow2(k: nat): (p: nat)
    ensures p >= 1
  {
    if k == 0 then 1 else 2 * Pow2(k - 1)
  }

  predicate Bit(b: nat, k: nat) {
    (b / Pow2(k)) % 2 == 1
  }

  function SetBit(b: nat, k: nat): nat {
    if Bit(b, k) then b else b + Pow2(k)
  }

  function Min(a: int, b: int): int { if a <= b then a else b }

  function Max(a: int, b: int): int { if a <= b then b else a }

  /** A big-endian pair. */
  function Word(high: nat, low: nat): u32
    requires high < 256 && low < 256
  {
    high * 256 + low
  }

  lemma Successor(v: bv8)
    requires v as int < 255
    ensures (v + 1) as int == v as int + 1
  {}

  /** The byte as eight bits: a cast, spelled out by counting. */
  method ToBits(b: byte) returns (v: bv8)
    ensures v as int == b
  {
    v := 0;
    for i := 0 to b
      invariant v as int == i
    {
      Successor(v);
      v := v + 1;
    }
  }

  lemma Bit0(v: bv8)
    ensures (v & 1 != 0) <==> (v as int) / 1 % 2 == 1
  {}

  lemma Bit1(v: bv8)
    ensures (v & 2 != 0) <==> (v as int) / 2 % 2 == 1
  {}

  lemma Bit2(v: bv8)
    ensures (v & 4 != 0) <==> (v as int) / 4 % 2 == 1
  {}

  lemma Bit3(v: bv8)
    ensures (v & 8 != 0) <==> (v as int) / 8 % 2 == 1
  {}

  lemma Bit4(v: bv8)
    ensures (v & 16 != 0) <==> (v as int) / 16 % 2 == 1
  {}

  lemma Bit5(v: bv8)
    ensures (v & 32 != 0) <==> (v as int) / 32 % 2 == 1
  {}

  lemma Bit6(v: bv8)
    ensures (v & 64 != 0) <==> (v as int) / 64 % 2 == 1
  {}

  lemma Bit7(v: bv8)
    ensures (v & 128 != 0) <==> (v as int) / 128 % 2 == 1
  {}

  /** BIT(k) of a byte. */
  method TestBit(b: byte, k: nat) returns (on: bool)
    requires k < 8
    ensures on == Bit(b, k)
  {
    assert Pow2(0) == 1 && Pow2(1) == 2 && Pow2(2) == 4 && Pow2(3) == 8;
    assert Pow2(4) == 16 && Pow2(5) == 32 && Pow2(6) == 64 && Pow2(7) == 128;
    var v := ToBits(b);
    match k
    case 0 => Bit0(v); on := v & 1 != 0;
    case 1 => Bit1(v); on := v & 2 != 0;
    case 2 => Bit2(v); on := v & 4 != 0;
    case 3 => Bit3(v); on := v & 8 != 0;
    case 4 => Bit4(v); on := v & 16 != 0;
    case 5 => Bit5(v); on := v & 32 != 0;
    case 6 => Bit6(v); on := v & 64 != 0;
    case 7 => Bit7(v); on := v & 128 != 0;
  }

  method ButtonBits(b: byte) returns (n: nat)
    ensures n == b % 8
  {
    var v := ToBits(b);
    n := (v & 0x07) as int;
  }

  method LowNibble(b: byte) returns (n: nat)
    ensures n == b % 16
  {
    var v := ToBits(b);
    n := (v & 0x0f) as int;
  }

  method HighNibble(b: byte) returns (n: nat)
    ensures n == b / 16
  {
    var v := ToBits(b);
    n := (v >> 4) as int;
  }

  lemma HighNibbleBits(b: bv8, c: bv8)
    ensures ((((b & 0xf0) as bv16) << 4) | (c as bv16)) as int == (b as int) / 16 * 256 + c as int
  {}

  lemma LowNibbleBits(b: bv8, c: bv8)
    ensures ((((b & 0x0f) as bv16) << 8) | (c as bv16)) as int == (b as int) % 16 * 256 + c as int
  {}

  lemma PairBits(b: bv8, c: bv8)
    ensures (((b as bv16) << 8) | (c as bv16)) as int == (b as int) * 256 + c as int
  {}

  method HighNibbleWord(b: byte, c: byte) returns (n: u32)
    ensures n == Word(b / 16, c)
  {
    var v := ToBits(b);
    var w := ToBits(c);
    HighNibbleBits(v, w);
    n := ((((v & 0xf0) as bv16) << 4) | (w as bv16)) as int;
  }

  method LowNibbleWord(b: byte, c: byte) returns (n: u32)
    ensures n == Word(b % 16, c)
  {
    var v := ToBits(b);
    var w := ToBits(c);
    LowNibbleBits(v, w);
    n := ((((v & 0x0f) as bv16) << 8) | (w as bv16)) as int;
  }

  method BytePair(b: byte, c: byte) returns (n: u32)
    ensures n == Word(b, c)
  {
    var v := ToBits(b);
    var w := ToBits(c);
    PairBits(v, w);
    n := (((v as bv16) << 8) | (w as bv16)) as int;
  }

  method FlipTop(b: byte) returns (n: nat)
    ensures n == (b + 128) % 256
  {
    var v := ToBits(b);
    n := (v ^ 0x80) as int;
  }
}
