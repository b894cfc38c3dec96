// The JavaScript number semantics the generated protobuf runtime relies on:
// 32-bit conversions, the `Long` record and the ZigZag transforms.
module JsNumbers {
  import opened Arith

  /** An element of a `Uint8Array`. */
  type byte = x: int | 0 <= x < 0x100
  /** A number after `>>> 0`. */
  type uint32 = x: int | 0 <= x < 0x1_0000_0000
  /** A number after `| 0`. */
  type int32 = x: int | -0x8000_0000 <= x < 0x8000_0000

  const TWO_31: nat := 0x8000_0000
  const TWO_32: nat := 0x1_0000_0000
  const TWO_64: nat := 0x1_0000_0000_0000_0000

  /** ECMAScript ToUint32 of an integral number (`x >>> 0`). */
  function ToUint32(x: int): (r: uint32)
    ensures (x - r) % TWO_32 == 0
  {
    x % TWO_32
  }

  /** ECMAScript ToInt32 of an integral number (`x | 0`). */
  function ToInt32(x: int): (r: int32)
    ensures (x - r) % TWO_32 == 0
    ensures ToUint32(r) == ToUint32(x)
  {
    var u := x % TWO_32;
    if u < TWO_31 then u else u - TWO_32
  }

  lemma {:induction false} Int32Fixed(v: int32)
    ensures ToInt32(v) == v
    ensures ToUint32(v) == if v < 0 then v + TWO_32 else v
  {
  }

  lemma {:induction false} Uint32Fixed(u: uint32)
    ensures ToUint32(u) == u
    ensures ToInt32(u) == if u < TWO_31 then u else u - TWO_32
  {
  }

  /** ToInt32 only depends on the value modulo 2^32. */
  lemma {:induction false} ToInt32Periodic(x: int, k: int)
    ensures ToInt32(x + k * TWO_32) == ToInt32(x)
    ensures ToUint32(x + k * TWO_32) == ToUint32(x)
  {
  }

  /** The `Long` record of the generated code: two 32-bit halves and a signedness flag. */
  datatype Long = Long(low: int32, high: int32, unsigned: bool)

  /** The 64 bits a Long stands for, read as an unsigned number. */
  function LongBits(l: Long): (r: nat)
    ensures r < TWO_64
    ensures r % TWO_32 == ToUint32(l.low) && r / TWO_32 == ToUint32(l.high)
  {
    ToUint32(l.low) + ToUint32(l.high) * TWO_32
  }

  /** The signed 64-bit integer a Long stands for (an `int64` field). */
  function LongSigned(l: Long): (r: int)
    ensures -0x8000_0000_0000_0000 <= r < 0x8000_0000_0000_0000
    ensures r % TWO_64 == LongBits(l)
  {
    l.high * TWO_32 + ToUint32(l.low)
  }

  /** The Long whose 64 bits are `bits` modulo 2^64. */
  function LongFromBits(bits: int, unsigned: bool): (r: Long)
    ensures LongBits(r) == bits % TWO_64 && r.unsigned == unsigned
  {
    var b := bits % TWO_64;
    Long(ToInt32(b % TWO_32), ToInt32(b / TWO_32), unsigned)
  }

  /** intToLong: `value |= 0`, the high word is the sign (`value >> 31`). */
  function IntToLong(value: int): (r: Long)
    ensures LongSigned(r) == ToInt32(value)
    ensures r.low == ToInt32(value)
    ensures r.unsigned == (ToInt32(value) >= 0)
  {
    var v := ToInt32(value);
    Long(v, if v < 0 then -1 else 0, v >= 0)
  }

  /** Bitwise complement `~x` (equivalently `x ^ -1`) of an int32. */
  function Not32(x: int32): (r: int32)
    ensures ToUint32(r) == TWO_32 - 1 - ToUint32(x)
  {
    -(x as int) - 1
  }

  /** The remainder modulo 2^32 is determined by any quotient that brings x into range. */
  lemma {:induction false} Mod32(x: int, q: int)
    requires 0 <= x - q * TWO_32 < TWO_32
    ensures ToUint32(x) == x - q * TWO_32
  {
  }

  /** The ZigZag map of signed to unsigned integers: 0, -1, 1, -2, ... become 0, 1, 2, 3, ... */
  function ZigZag(s: int): (r: nat)
    ensures r % 2 == (if s < 0 then 1 else 0)
  {
    if s >= 0 then 2 * s else -2 * s - 1
  }

  /** The inverse of ZigZag on naturals. */
  function UnZigZag(z: nat): (r: int)
    ensures ZigZag(r) == z
  {
    if z % 2 == 0 then z / 2 else -(z / 2) - 1
  }

  /** writeVarint32ZigZag: `(value << 1) ^ (value >> 31)`, made unsigned by writeVarint32's `>>> 0`. */
  function ZigZag32(value: int): (r: uint32)
    ensures r == ZigZag(ToInt32(value))
  {
    var v := ToInt32(value);
    var shifted := ToInt32(2 * v);
    var flip := if v < 0 then -1 else 0;
    ZigZag32Bits(v);
    ToUint32(if flip == 0 then shifted else Not32(shifted))
  }

  lemma {:induction false} ZigZag32Bits(v: int32)
    ensures v >= 0 ==> ToUint32(ToInt32(2 * v)) == 2 * v
    ensures v < 0 ==> ToUint32(Not32(ToInt32(2 * v))) == -2 * v - 1
  {
    if v >= 0 {
      Mod32(2 * v, 0);
    } else {
      Mod32(2 * v, -1);
    }
  }

  /** readVarint32ZigZag: `(value >>> 1) ^ -(value & 1)` on the int32 readVarint32 returns. */
  function UnZigZag32(value: int32): (r: int32)
    ensures ZigZag(r) == ToUint32(value)
  {
    var half := ToUint32(value) / 2;
    var flip := -(ToUint32(value) % 2);
    if flip == 0 then half else Not32(half)
  }

  lemma {:induction false} ZigZag32RoundTrip(v: int32)
    ensures UnZigZag32(ToInt32(ZigZag32(v))) == v
  {
    var z := ZigZag32(v);
    Int32Fixed(v);
    assert z == ZigZag(v);
    var r := UnZigZag32(ToInt32(z));
    assert ToUint32(ToInt32(z)) == z;
    assert ZigZag(r) == ZigZag(v);
    UnZigZagOfZigZag(r);
    UnZigZagOfZigZag(v);
  }

  /** `x << 1` on an int32, as an unsigned word: the top bit falls off. */
  lemma {:induction false} Double32(x: int32)
    ensures ToUint32(2 * x) == 2 * ToUint32(x) - (ToUint32(x) / TWO_31) * TWO_32
  {
    var u := ToUint32(x);
    if x < 0 {
      assert u == x + TWO_32;
      Mod32(2 * x, -1);
    } else {
      Mod32(2 * x, ToUint32(x) / TWO_31);
    }
  }

  /** writeVarint64ZigZag: the halves of `(value << 1) ^ (value >> 63)` computed word by word. */
  function ZigZag64(value: Long): (r: Long)
    ensures LongBits(r) == ZigZag(LongSigned(value))
    ensures !r.unsigned
  {
    var flip := if value.high < 0 then -1 else 0;
    var low := ToInt32(2 * value.low);
    var high := ToInt32(ToInt32(2 * value.high) + ToUint32(value.low) / TWO_31);
    var r := if flip == 0 then Long(low, high, false) else Long(Not32(low), Not32(high), false);
    ZigZag64Bits(value, low, high);
    r
  }

  lemma {:induction false} ZigZag64Bits(value: Long, low: int32, high: int32)
    requires low == ToInt32(2 * value.low)
    requires high == ToInt32(ToInt32(2 * value.high) + ToUint32(value.low) / TWO_31)
    ensures value.high >= 0 ==> ToUint32(low) + ToUint32(high) * TWO_32 == 2 * LongSigned(value)
    ensures value.high < 0 ==> ToUint32(Not32(low)) + ToUint32(Not32(high)) * TWO_32 == -2 * LongSigned(value) - 1
  {
    var lu := ToUint32(value.low);
    var carry := lu / TWO_31;
    Double32(value.low);
    var lw := ToUint32(low);
    assert lw == 2 * lu - carry * TWO_32;
    var hw := HighDoubled(value.high, carry, high);
    var s := LongSigned(value);
    assert s == value.high * TWO_32 + lu;
    if value.high >= 0 {
      assert hw * TWO_32 == 2 * value.high * TWO_32 + carry * TWO_32;
    } else {
      assert hw * TWO_32 == 2 * value.high * TWO_32 + carry * TWO_32 + TWO_64;
      assert ToUint32(Not32(low)) == TWO_32 - 1 - lw;
      assert ToUint32(Not32(high)) * TWO_32 == (TWO_32 - 1) * TWO_32 - hw * TWO_32;
    }
  }

  /** `(value.high << 1) | carry` as an unsigned word: the sign bit of the high word falls off. */
  lemma {:induction false} HighDoubled(h: int32, carry: int, high: int32) returns (hw: uint32)
    requires carry == 0 || carry == 1
    requires high == ToInt32(ToInt32(2 * h) + carry)
    ensures hw == ToUint32(high)
    ensures hw == if h >= 0 then 2 * h + carry else 2 * h + carry + TWO_32
  {
    hw := ToUint32(high);
    var h2 := ToInt32(2 * h);
    assert hw == ToUint32(h2 + carry);
    if h >= 0 {
      Mod32(2 * h, 0);
      if h2 == 2 * h {
        Mod32(h2 + carry, 0);
      } else {
        Mod32(h2 + carry, -1);
      }
    } else {
      Mod32(2 * h, -1);
      if h2 == 2 * h {
        Mod32(h2 + carry, -1);
      } else {
        Mod32(h2 + carry, 0);
      }
    }
  }

  /** readVarint64ZigZag: `((low >>> 1) | (high << 31)) ^ flip` and `(high >>> 1) ^ flip`, flip = `-(low & 1)`. */
  function UnZigZag64(value: Long): (r: Long)
    ensures LongSigned(r) == UnZigZag(LongBits(value))
    ensures !r.unsigned
  {
    var lu := ToUint32(value.low);
    var hu := ToUint32(value.high);
    var flip := -(lu % 2);
    var low := ToInt32(lu / 2 + (hu % 2) * TWO_31);
    var high := ToInt32(hu / 2);
    var r := if flip == 0 then Long(low, high, false) else Long(Not32(low), Not32(high), false);
    UnZigZag64Bits(value, low, high);
    r
  }

  lemma {:induction false} UnZigZag64Bits(value: Long, low: int32, high: int32)
    requires low == ToInt32(ToUint32(value.low) / 2 + (ToUint32(value.high) % 2) * TWO_31)
    requires high == ToInt32(ToUint32(value.high) / 2)
    ensures ToUint32(value.low) % 2 == 0 ==> LongSigned(Long(low, high, false)) == UnZigZag(LongBits(value))
    ensures ToUint32(value.low) % 2 == 1 ==> LongSigned(Long(Not32(low), Not32(high), false)) == UnZigZag(LongBits(value))
  {
    var lu := ToUint32(value.low);
    var hu := ToUint32(value.high);
    var lowu := lu / 2 + (hu % 2) * TWO_31;
    Mod32(lowu, 0);
    assert ToUint32(low) == lowu;
    Uint32Fixed(hu / 2);
    assert high == hu / 2;
    var u := LongBits(value);
    assert u == lu + hu * TWO_32;
    HalveWords(lu, hu);
    if lu % 2 == 0 {
      assert LongSigned(Long(low, high, false)) == high * TWO_32 + lowu;
    } else {
      assert ToUint32(Not32(low)) == TWO_32 - 1 - lowu;
      assert Not32(high) == -(hu / 2) - 1;
      assert LongSigned(Long(Not32(low), Not32(high), false)) == (-(hu / 2) - 1) * TWO_32 + (TWO_32 - 1 - lowu);
    }
  }

  /** Halving a two-word value: `(low >>> 1) | (high << 31)` and `high >>> 1`. */
  lemma {:induction false} HalveWords(lu: uint32, hu: uint32)
    ensures (lu + hu * TWO_32) % 2 == lu % 2
    ensures (lu + hu * TWO_32) / 2 == (hu / 2) * TWO_32 + lu / 2 + (hu % 2) * TWO_31
  {
    var half := (hu / 2) * TWO_32 + lu / 2 + (hu % 2) * TWO_31;
    assert hu == 2 * (hu / 2) + hu % 2;
    assert lu == 2 * (lu / 2) + lu % 2;
    assert hu * TWO_32 == (hu / 2) * (2 * TWO_32) + (hu % 2) * TWO_32;
    DivUnique(lu + hu * TWO_32, 2, half, lu % 2);
  }

  lemma {:induction false} ZigZag64RoundTrip(value: Long)
    ensures var r := UnZigZag64(LongFromBits(LongBits(ZigZag64(value)), false));
            r.low == value.low && r.high == value.high
  {
    var s := LongSigned(value);
    var z := ZigZag64(value);
    var back := LongFromBits(LongBits(z), false);
    BitsRoundTrip(z);
    assert LongBits(back) == ZigZag(s);
    var r := UnZigZag64(back);
    UnZigZagOfZigZag(s);
    assert LongSigned(r) == s;
    LongSignedInjective(r, value);
  }

  lemma {:induction false} BitsRoundTrip(l: Long)
    ensures LongBits(LongFromBits(LongBits(l), false)) == LongBits(l)
  {
  }

  /** A Long is rebuilt from its 64 bits, whatever the signedness flag. */
  lemma {:induction false} LongFromOwnBits(l: Long, unsigned: bool)
    ensures LongFromBits(LongBits(l), unsigned) == Long(l.low, l.high, unsigned)
  {
    var b := LongBits(l);
    assert b % TWO_64 == b;
    Int32Fixed(l.low);
    Int32Fixed(l.high);
    assert ToInt32(ToUint32(l.low)) == l.low;
    assert ToInt32(ToUint32(l.high)) == l.high;
  }

  lemma {:induction false} UnZigZagOfZigZag(s: int)
    ensures UnZigZag(ZigZag(s)) == s
  {
  }

  lemma {:induction false} LongSignedInjective(a: Long, b: Long)
    requires LongSigned(a) == LongSigned(b)
    ensures a.low == b.low && a.high == b.high
  {
    var s := LongSigned(a);
    DivUnique(s, TWO_32, a.high, ToUint32(a.low));
    DivUnique(s, TWO_32, b.high, ToUint32(b.low));
    Int32Fixed(a.low);
    Int32Fixed(b.low);
  }
}
