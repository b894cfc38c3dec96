// The base-128 integer encoding written by writeVarint32 and writeVarint64.
module Varint {
  import opened JsNumbers
  import opened Arith

  function Pow128(k: nat): (r: nat)
    ensures r >= 1
  {
    if k == 0 then 1 else 128 * Pow128(k - 1)
  }

  lemma {:induction false} Pow128Values()
    ensures Pow128(1) == 0x80 && Pow128(2) == 0x4000 && Pow128(3) == 0x20_0000
    ensures Pow128(4) == 0x1000_0000 && Pow128(5) == 0x8_0000_0000
    ensures Pow128(6) == 0x400_0000_0000 && Pow128(7) == 0x2_0000_0000_0000
    ensures Pow128(8) == 0x100_0000_0000_0000 && Pow128(9) == 0x8000_0000_0000_0000
    ensures Pow128(10) == 0x40_0000_0000_0000_0000
  {
  }

  /** Seven bits per byte, lowest group first, the continuation bit 0x80 on every byte but the last. */
  function VarintBytes(v: nat): (r: seq<byte>)
    ensures |r| >= 1 && r[|r| - 1] < 0x80
    ensures forall i :: 0 <= i < |r| - 1 ==> r[i] >= 0x80
    decreases v
  {
    if v < 0x80 then [v] else [v % 0x80 + 0x80] + VarintBytes(v / 0x80)
  }

  /** The encoding is exactly as long as the number of seven-bit groups the value needs. */
  lemma {:induction false} VarintLength(v: nat, k: nat)
    requires 1 <= k
    requires v < Pow128(k) && (k == 1 || Pow128(k - 1) <= v)
    ensures |VarintBytes(v)| == k
    decreases k
  {
    if k > 1 {
      assert v >= 0x80 by {
        PowMonotone(1, k - 1);
      }
      assert v / 0x80 < Pow128(k - 1);
      assert k - 1 == 1 || Pow128(k - 2) <= v / 0x80;
      VarintLength(v / 0x80, k - 1);
    }
  }

  lemma {:induction false} PowMonotone(i: nat, j: nat)
    requires i <= j
    ensures Pow128(i) <= Pow128(j)
    decreases j
  {
    if i < j {
      PowMonotone(i, j - 1);
    }
  }

  /** `v >>> 7k` for a value of any width. */
  function Shift(v: nat, k: nat): (r: nat)
    ensures r <= v
    decreases k
  {
    if k == 0 then v else Shift(v / 0x80, k - 1)
  }

  lemma {:induction false} ShiftStep(v: nat, k: nat)
    ensures Shift(v, k + 1) == Shift(v, k) / 0x80
    decreases k
  {
    if k > 0 {
      ShiftStep(v / 0x80, k - 1);
    }
  }

  lemma {:induction false} ShiftIsDiv(v: nat, k: nat)
    ensures Shift(v, k) == v / Pow128(k)
    decreases k
  {
    if k > 0 {
      ShiftIsDiv(v, k - 1);
      ShiftStep(v, k - 1);
      DivDiv(v, Pow128(k - 1), 0x80);
      assert Pow128(k - 1) * 0x80 == Pow128(k);
    }
  }

  lemma {:induction false} ShiftValues(v: nat)
    ensures Shift(v, 1) == v / 0x80 && Shift(v, 2) == v / 0x4000 && Shift(v, 3) == v / 0x20_0000
    ensures Shift(v, 4) == v / 0x1000_0000 && Shift(v, 5) == v / 0x8_0000_0000
    ensures Shift(v, 6) == v / 0x400_0000_0000 && Shift(v, 7) == v / 0x2_0000_0000_0000
    ensures Shift(v, 8) == v / 0x100_0000_0000_0000 && Shift(v, 9) == v / 0x8000_0000_0000_0000
  {
    Pow128Values();
    ShiftIsDiv(v, 1);
    ShiftIsDiv(v, 2);
    ShiftIsDiv(v, 3);
    ShiftIsDiv(v, 4);
    ShiftIsDiv(v, 5);
    ShiftIsDiv(v, 6);
    ShiftIsDiv(v, 7);
    ShiftIsDiv(v, 8);
    ShiftIsDiv(v, 9);
  }

  /** Byte k of the encoding carries bits 7k .. 7k+6 of the value. */
  lemma {:induction false} VarintByteAt(v: nat, k: nat)
    requires k < |VarintBytes(v)|
    ensures VarintBytes(v)[k] == Shift(v, k) % 0x80 + (if k < |VarintBytes(v)| - 1 then 0x80 else 0)
    decreases k
  {
    if k > 0 {
      VarintByteAt(v / 0x80, k - 1);
    }
  }

  /** The three words writeVarint64 splits a Long into: `low >>> 0`, `((low >>> 28) | (high << 4)) >>> 0`, `high >>> 24`. */
  function Varint64Parts(value: Long): (parts: (nat, nat, nat))
    ensures parts.0 == LongBits(value) % TWO_32
    ensures parts.1 == (LongBits(value) / 0x1000_0000) % TWO_32
    ensures parts.2 == LongBits(value) / 0x100_0000_0000_0000
  {
    var part0 := ToUint32(value.low);
    var part1 := ToUint32(ToUint32(value.low) / 0x1000_0000 + ToInt32(16 * value.high));
    var part2 := ToUint32(value.high) / 0x100_0000;
    PartsLemma(value);
    (part0, part1, part2)
  }

  lemma {:induction false} PartsLemma(value: Long)
    ensures ToUint32(ToUint32(value.low) / 0x1000_0000 + ToInt32(16 * value.high))
            == (LongBits(value) / 0x1000_0000) % TWO_32
    ensures ToUint32(value.high) / 0x100_0000 == LongBits(value) / 0x100_0000_0000_0000
  {
    var lu: int := ToUint32(value.low);
    var hu: int := ToUint32(value.high);
    var v := LongBits(value);
    assert v / 0x1000_0000 == lu / 0x1000_0000 + 16 * hu;
    var h16 := ToInt32(16 * value.high);
    var m := (value.high as int - hu) / TWO_32;
    assert value.high as int - hu == m * TWO_32;
    var j := (16 * value.high - h16) / TWO_32;
    assert 16 * value.high - h16 == j * TWO_32;
    var x := lu / 0x1000_0000 + 16 * hu;
    assert lu / 0x1000_0000 + h16 == x + (16 * m - j) * TWO_32;
    ToInt32Periodic(x, 16 * m - j);
  }

  /** writeVarint64's size ladder, as written. */
  function Varint64Size(part0: nat, part1: nat, part2: nat): (size: nat)
    ensures 1 <= size <= 10
  {
    if part2 == 0 then
      if part1 == 0 then
        if part0 < 0x4000 then (if part0 < 0x80 then 1 else 2)
        else (if part0 < 0x20_0000 then 3 else 4)
      else if part1 < 0x4000 then (if part1 < 0x80 then 5 else 6)
      else (if part1 < 0x20_0000 then 7 else 8)
    else if part2 < 0x80 then 9 else 10
  }

  /** The ladder picks the shortest encoding: 1 byte below 2^7, ..., 10 bytes from 2^63 on. */
  lemma {:induction false} Varint64SizeIsLength(value: Long)
    ensures var parts := Varint64Parts(value);
            Varint64Size(parts.0, parts.1, parts.2) == |VarintBytes(LongBits(value))|
  {
    var v := LongBits(value);
    var parts := Varint64Parts(value);
    Pow128Values();
    if parts.2 != 0 {
      if parts.2 < 0x80 { VarintLength(v, 9); } else { VarintLength(v, 10); }
    } else {
      SmallMiddle(v);
      if parts.1 != 0 {
        if parts.1 < 0x80 { VarintLength(v, 5); }
        else if parts.1 < 0x4000 { VarintLength(v, 6); }
        else if parts.1 < 0x20_0000 { VarintLength(v, 7); }
        else { VarintLength(v, 8); }
      } else {
        SmallLow(v);
        if v < 0x80 { VarintLength(v, 1); }
        else if v < 0x4000 { VarintLength(v, 2); }
        else if v < 0x20_0000 { VarintLength(v, 3); }
        else { VarintLength(v, 4); }
      }
    }
  }

  /** Below 2^56 the middle word is the value shifted right by 28, untruncated. */
  lemma {:induction false} SmallMiddle(v: nat)
    requires v / 0x100_0000_0000_0000 == 0
    ensures (v / 0x1000_0000) % TWO_32 == v / 0x1000_0000 < 0x1000_0000
  {
    DivDiv(v, 0x1000_0000, 0x1000_0000);
    var q := v / 0x1000_0000;
    assert q / 0x1000_0000 == 0;
    DivUnique(q, TWO_32, 0, q);
  }

  /** Below 2^28 the low word is the value itself. */
  lemma {:induction false} SmallLow(v: nat)
    requires v / 0x1000_0000 == 0
    ensures v % TWO_32 == v < 0x1000_0000
  {
    DivUnique(v, TWO_32, 0, v);
  }

  /** `x | 0x80` stored into a Uint8Array. */
  function WithMore(x: nat): (b: byte)
    ensures b >= 0x80 && b % 0x80 == x % 0x80
  {
    x % 0x80 + 0x80
  }

  /** `x & 0x7F`. */
  function Last(x: nat): (b: byte)
    ensures b < 0x80 && b == x % 0x80
  {
    x % 0x80
  }

  /** The word the switch masks into the byte at `offset + k`, for k < 9. */
  function SwitchWord(part0: nat, part1: nat, part2: nat, k: nat): nat
    requires k < 9
  {
    if k == 0 then part0 else if k == 1 then part0 / 0x80
    else if k == 2 then part0 / 0x4000 else if k == 3 then part0 / 0x20_0000
    else if k == 4 then part1 else if k == 5 then part1 / 0x80
    else if k == 6 then part1 / 0x4000 else if k == 7 then part1 / 0x20_0000
    else part2
  }

  /** The byte writeVarint64's fall-through switch stores at `offset + k`. */
  function SwitchByte(part0: nat, part1: nat, part2: nat, size: nat, k: nat): byte
    requires k < size <= 10
  {
    if k == 9 then (part2 / 0x80) % 2
    else if size != k + 1 then WithMore(SwitchWord(part0, part1, part2, k))
    else Last(SwitchWord(part0, part1, part2, k))
  }

  /** The bytes writeVarint64 emits for a Long. */
  function Varint64Bytes(value: Long): (r: seq<byte>)
    ensures r == VarintBytes(LongBits(value))
    ensures 1 <= |r| <= 10
  {
    var parts := Varint64Parts(value);
    var size := Varint64Size(parts.0, parts.1, parts.2);
    Varint64SizeIsLength(value);
    var r := seq(size, k requires 0 <= k < size => SwitchByte(parts.0, parts.1, parts.2, size, k));
    assert forall k | 0 <= k < size :: r[k] == VarintBytes(LongBits(value))[k] by {
      forall k | 0 <= k < size
        ensures r[k] == VarintBytes(LongBits(value))[k]
      {
        SwitchByteIsGroup(value, k);
      }
    }
    r
  }

  lemma {:induction false} SwitchByteIsGroup(value: Long, k: nat)
    requires k < |VarintBytes(LongBits(value))|
    ensures var parts := Varint64Parts(value);
            var size := Varint64Size(parts.0, parts.1, parts.2);
            k < size && SwitchByte(parts.0, parts.1, parts.2, size, k) == VarintBytes(LongBits(value))[k]
  {
    var v := LongBits(value);
    var parts := Varint64Parts(value);
    var part0, part1, part2 := parts.0, parts.1, parts.2;
    var size := Varint64Size(part0, part1, part2);
    Varint64SizeIsLength(value);
    assert size == |VarintBytes(v)|;
    VarintByteAt(v, k);
    var g := Shift(v, k) % 0x80;
    assert VarintBytes(v)[k] == g + (if k < size - 1 then 0x80 else 0);
    var b := SwitchByte(part0, part1, part2, size, k);
    if k == 9 {
      SwitchTopGroup(v, part2);
      assert b == (part2 / 0x80) % 2;
    } else {
      SwitchWordGroup(v, part0, part1, part2, k);
      var word := SwitchWord(part0, part1, part2, k);
      if size != k + 1 {
        assert b == WithMore(word);
      } else {
        assert b == Last(word);
      }
    }
  }

  /** The word the switch stores at `offset + k`, k < 9, holds group k of the value in its low seven bits. */
  lemma {:induction false} SwitchWordGroup(v: nat, part0: nat, part1: nat, part2: nat, k: nat)
    requires v < TWO_64 && k < 9
    requires part0 == v % TWO_32 && part1 == (v / 0x1000_0000) % TWO_32 && part2 == v / 0x100_0000_0000_0000
    ensures SwitchWord(part0, part1, part2, k) % 0x80 == Shift(v, k) % 0x80
  {
    var word := SwitchWord(part0, part1, part2, k);
    if k < 4 {
      assert word == SwitchWord(part0, 0, 0, k);
      LowWordGroup(v, part0, k);
    } else if k < 8 {
      assert word == SwitchWord(0, part1, 0, k);
      MidWordGroup(v, part1, k);
    } else {
      assert word == part2;
      ShiftValues(v);
    }
  }

  /** The tenth byte, `(part2 >>> 7) & 0x01`, is bit 63 of the value. */
  lemma {:induction false} SwitchTopGroup(v: nat, part2: nat)
    requires v < TWO_64 && part2 == v / 0x100_0000_0000_0000
    ensures (part2 / 0x80) % 2 == Shift(v, 9) % 0x80
  {
    ShiftIsDiv(v, 9);
    assert Pow128(9) == 0x8000_0000_0000_0000 by {
      Pow128Values();
    }
    DivDiv(v, 0x100_0000_0000_0000, 0x80);
    var top := v / 0x8000_0000_0000_0000;
    assert part2 / 0x80 == top;
    assert top < 2 by {
      DivUnique(v, 0x8000_0000_0000_0000, top, v % 0x8000_0000_0000_0000);
    }
  }

  lemma {:induction false} LowWordGroup(v: nat, part0: nat, k: nat)
    requires k < 4 && part0 == v % TWO_32
    ensures SwitchWord(part0, 0, 0, k) % 0x80 == Shift(v, k) % 0x80
  {
    ShiftIsDiv(part0, k);
    Pow128Values();
    LowGroups(v, k);
  }

  lemma {:induction false} MidWordGroup(v: nat, part1: nat, k: nat)
    requires 4 <= k < 8 && part1 == (v / 0x1000_0000) % TWO_32
    ensures SwitchWord(0, part1, 0, k) % 0x80 == Shift(v, k) % 0x80
  {
    ShiftIsDiv(part1, k - 4);
    Pow128Values();
    LowGroups(v / 0x1000_0000, k - 4);
    ShiftIsDiv(v, 4);
    ShiftShift(v, 4, k - 4);
  }

  lemma {:induction false} ShiftShift(v: nat, i: nat, j: nat)
    ensures Shift(Shift(v, i), j) == Shift(v, i + j)
    decreases i
  {
    if i > 0 {
      ShiftShift(v / 0x80, i - 1, j);
    }
  }

  /** Reducing modulo 2^32 first does not change the groups below bit 28. */
  lemma {:induction false} LowGroups(w: nat, j: nat)
    requires j < 4
    ensures Shift(w % TWO_32, j) % 0x80 == Shift(w, j) % 0x80
  {
    ShiftIsDiv(w, j);
    ShiftIsDiv(w % TWO_32, j);
    Pow128Values();
    if j == 0 {
      LowGroupsBy(w, 1, 0x200_0000);
    } else if j == 1 {
      LowGroupsBy(w, 0x80, 0x4_0000);
    } else if j == 2 {
      LowGroupsBy(w, 0x4000, 0x800);
    } else {
      LowGroupsBy(w, 0x20_0000, 0x10);
    }
  }

  lemma {:induction false} LowGroupsBy(w: nat, p: nat, m: nat)
    requires p > 0 && p * 0x80 * m == TWO_32
    ensures ((w % TWO_32) / p) % 0x80 == (w / p) % 0x80
  {
    var a := w / TWO_32;
    var b := w % TWO_32;
    assert TWO_32 * a == p * (0x80 * m * a);
    ModAddMultiple(b, p, 0x80 * m * a);
    assert 0x80 * m * a == 0x80 * (m * a);
    ModAddMultiple(b / p, 0x80, m * a);
  }
}
