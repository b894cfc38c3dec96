// The reading side of the generated ByteBuffer runtime (advance, skip, readByte,
// readVarint32, readVarint64, readString, skipUnknownField, pushTemporaryLength),
// as functions from a cursor to the value read and the cursor after it, and the
// byte strings the writing side appends.
module Wire {
  import opened Wrappers
  import opened Arith
  import opened JsNumbers
  import opened Varint
  import opened Utf8

  /** A ByteBuffer as the decoders see it: its bytes, the read position and the current limit. */
  datatype Cursor = Cursor(bytes: seq<byte>, offset: int, limit: int)

  /** The errors the runtime throws while reading. */
  datatype WireError = ReadPastLimit | SkipPastLimit | UnimplementedType(wireType: int)

  /** wrapByteBuffer: read the whole array from the start. */
  function Wrap(s: seq<byte>): Cursor {
    Cursor(s, 0, |s|)
  }

  /**
   * `bb.bytes[i]`: an index outside the Uint8Array yields `undefined`, which every
   * use in the runtime (`&`, `|`, `<<`, `!!`, `String.fromCharCode`) treats as 0.
   */
  function ByteAt(s: seq<byte>, i: int): byte {
    if 0 <= i < |s| then s[i] else 0
  }

  /** isAtEnd */
  predicate IsAtEnd(c: Cursor) {
    c.offset >= c.limit
  }

  /** `d` reads the same bytes under the same limit as `c`, at or after `c`'s position. */
  predicate Forward(c: Cursor, d: Cursor) {
    d.bytes == c.bytes && d.limit == c.limit && c.offset <= d.offset
  }

  /** `e` is stored at position `p` of `s`. */
  predicate At(s: seq<byte>, p: int, e: seq<byte>) {
    0 <= p && p + |e| <= |s| && forall i :: 0 <= i < |e| ==> s[p + i] == e[i]
  }

  /** advance: the old offset, or "Read past limit" when `count` bytes would pass the limit. */
  function Advance(c: Cursor, count: int): (r: Result<(int, Cursor), WireError>)
    ensures r.Err? <==> c.offset + count > c.limit
    ensures r.Err? ==> r.error == ReadPastLimit
    ensures r.Ok? ==> r.value.0 == c.offset && r.value.1 == c.(offset := c.offset + count)
    ensures r.Ok? ==> r.value.1.offset <= c.limit
  {
    if c.offset + count > c.limit then Err(ReadPastLimit) else Ok((c.offset, c.(offset := c.offset + count)))
  }

  /** skip: like advance, with "Skip past limit". */
  function Skip(c: Cursor, count: int): (r: Result<Cursor, WireError>)
    ensures r.Err? <==> c.offset + count > c.limit
    ensures r.Err? ==> r.error == SkipPastLimit
    ensures r.Ok? ==> r.value == c.(offset := c.offset + count) && r.value.offset <= c.limit
  {
    if c.offset + count > c.limit then Err(SkipPastLimit) else Ok(c.(offset := c.offset + count))
  }

  /** readByte: the byte at the read position, which must lie below the limit. */
  function ReadByte(c: Cursor): (r: Result<(byte, Cursor), WireError>)
    ensures r.Ok? <==> c.offset < c.limit
    ensures r.Err? ==> r.error == ReadPastLimit
    ensures r.Ok? ==> r.value.0 == ByteAt(c.bytes, c.offset) && r.value.1 == c.(offset := c.offset + 1)
  {
    match Advance(c, 1)
    case Err(e) => Err(e)
    case Ok((at, next)) => Ok((ByteAt(c.bytes, at), next))
  }

  /**
   * readVarint32's do-while loop from its k-th byte on, with `acc` the groups gathered
   * so far: a group is kept only while its shift `7k` is below 32, and the value returned
   * is the 32-bit pattern read as a signed number.
   */
  function ReadVarint32From(c: Cursor, k: nat, acc: nat): (r: Result<(int32, Cursor), WireError>)
    ensures r.Ok? ==> Forward(c, r.value.1) && c.offset < r.value.1.offset <= c.limit
    ensures r.Err? ==> r.error == ReadPastLimit
    decreases c.limit - c.offset
  {
    match ReadByte(c)
    case Err(e) => Err(e)
    case Ok((b, next)) =>
      var acc' := Gather32(acc, b, k);
      if b >= 0x80 then ReadVarint32From(next, k + 1, acc') else Ok((ToInt32(acc'), next))
  }

  /** `if (c < 32) value |= (b & 0x7F) << c` with `c = 7k`: the groups never overlap, so `|` adds. */
  function Gather32(acc: nat, b: byte, k: nat): nat {
    if 7 * k < 32 then acc + Weighted(b % 0x80, k) else acc
  }

  /** `v << 7k` without wrap-around. */
  function Weighted(v: nat, k: nat): nat {
    v * Pow128(k)
  }

  /** `part |= (b & 0x7F) << 7k`, with the three words of readVarint64 taken as one sum. */
  function Gather64(acc: nat, b: byte, k: nat): nat {
    acc + Weighted(b % 0x80, k)
  }

  function ReadVarint32(c: Cursor): (r: Result<(int32, Cursor), WireError>)
    ensures r.Ok? ==> Forward(c, r.value.1) && c.offset < r.value.1.offset <= c.limit
  {
    ReadVarint32From(c, 0, 0)
  }

  /** readVarint64's nested ifs from the k-th byte on: at most ten bytes, every group kept. */
  function ReadVarint64From(c: Cursor, k: nat, acc: nat): (r: Result<(nat, Cursor), WireError>)
    ensures r.Ok? ==> Forward(c, r.value.1) && c.offset < r.value.1.offset <= c.limit
    ensures r.Err? ==> r.error == ReadPastLimit
    decreases c.limit - c.offset
  {
    match ReadByte(c)
    case Err(e) => Err(e)
    case Ok((b, next)) =>
      var acc' := Gather64(acc, b, k);
      if b >= 0x80 && k < 9 then ReadVarint64From(next, k + 1, acc') else Ok((acc', next))
  }

  /**
   * readVarint64. The source gathers the groups into three words and returns
   * `low: part0 | (part1 << 28), high: (part1 >>> 4) | (part2 << 24)`;
   * Reassembly shows that this is the Long of the 64 low bits of the sum of the groups.
   */
  function ReadVarint64(c: Cursor, unsigned: bool): (r: Result<(Long, Cursor), WireError>)
    ensures r.Ok? ==> Forward(c, r.value.1) && c.offset < r.value.1.offset <= c.limit
    ensures r.Ok? ==> r.value.0.unsigned == unsigned
  {
    match ReadVarint64From(c, 0, 0)
    case Err(e) => Err(e)
    case Ok((bits, next)) => Ok((LongFromBits(bits, unsigned), next))
  }

  /** The `count` bytes from `start` that readString's loop indexes (none when count <= 0). */
  function Window(s: seq<byte>, start: int, count: int): (w: seq<byte>)
    ensures |w| == if count < 0 then 0 else count
  {
    var w := seq<byte>(if count < 0 then 0 else count, i => ByteAt(s, start + i));
    w
  }

  /** readString: advance past `count` bytes, then decode them as UTF-8. */
  function ReadString(c: Cursor, count: int): (r: Result<(JsString, Cursor), WireError>)
    ensures r.Err? <==> c.offset + count > c.limit
    ensures r.Ok? ==> r.value.1 == c.(offset := c.offset + count)
    ensures r.Ok? ==> r.value.0 == Decode(Window(c.bytes, c.offset, count))
  {
    match Advance(c, count)
    case Err(e) => Err(e)
    case Ok((start, next)) => Ok((Decode(Window(c.bytes, start, count)), next))
  }

  /**
   * A length prefix, read as the decoders should: the varint's 32 bits as an unsigned
   * number (`readVarint32(bb) >>> 0`), so that it is never negative.
   */
  function ReadLength(c: Cursor): (r: Result<(uint32, Cursor), WireError>)
    ensures r.Ok? ==> Forward(c, r.value.1) && c.offset < r.value.1.offset <= c.limit
  {
    match ReadVarint32(c)
    case Err(e) => Err(e)
    case Ok((n, next)) => Ok((ToUint32(n), next))
  }

  /** A length-delimited string field's payload, with an unsigned length. */
  function ReadStringField(c: Cursor): (r: Result<(JsString, Cursor), WireError>)
    ensures r.Ok? ==> Forward(c, r.value.1) && c.offset < r.value.1.offset <= c.limit
  {
    match ReadLength(c)
    case Err(e) => Err(e)
    case Ok((n, next)) => ReadString(next, n)
  }

  /** `readString(bb, readVarint32(bb))` as the generated decoders write it: a signed length. */
  function ReadStringFieldAsWritten(c: Cursor): (r: Result<(JsString, Cursor), WireError>)
    ensures r.Ok? ==> r.value.1.bytes == c.bytes && r.value.1.limit == c.limit
  {
    match ReadVarint32(c)
    case Err(e) => Err(e)
    case Ok((n, next)) => ReadString(next, n)
  }

  /** `while (readByte(bb) & 0x80) { }` */
  function SkipVarint(c: Cursor): (r: Result<Cursor, WireError>)
    ensures r.Ok? ==> Forward(c, r.value) && c.offset < r.value.offset <= c.limit
    ensures r.Err? ==> r.error == ReadPastLimit
    decreases c.limit - c.offset
  {
    match ReadByte(c)
    case Err(e) => Err(e)
    case Ok((b, next)) => if b >= 0x80 then SkipVarint(next) else Ok(next)
  }

  /** skipUnknownField, with the wire type 2 length read unsigned. */
  function SkipUnknownField(c: Cursor, wireType: int): (r: Result<Cursor, WireError>)
    ensures r.Ok? ==> Forward(c, r.value) && r.value.offset <= c.limit
    ensures r.Ok? && wireType != 2 ==> c.offset < r.value.offset
    ensures wireType !in {0, 1, 2, 5} <==> r == Err(UnimplementedType(wireType))
  {
    if wireType == 0 then SkipVarint(c)
    else if wireType == 2 then
      match ReadLength(c)
      case Err(e) => Err(e)
      case Ok((n, next)) => Skip(next, n)
    else if wireType == 5 then Skip(c, 4)
    else if wireType == 1 then Skip(c, 8)
    else Err(UnimplementedType(wireType))
  }

  /** skipUnknownField as written: `skip(bb, readVarint32(bb))` takes a signed length. */
  function SkipUnknownFieldAsWritten(c: Cursor, wireType: int): (r: Result<Cursor, WireError>)
    ensures r.Ok? ==> r.value.bytes == c.bytes && r.value.limit == c.limit
    ensures wireType != 2 ==> r == SkipUnknownField(c, wireType)
  {
    if wireType == 2 then
      match ReadVarint32(c)
      case Err(e) => Err(e)
      case Ok((n, next)) => Skip(next, n)
    else SkipUnknownField(c, wireType)
  }

  /** `!!readByte(bb)` */
  function ReadBool(c: Cursor): (r: Result<(bool, Cursor), WireError>)
    ensures r.Ok? <==> c.offset < c.limit
    ensures r.Ok? ==> r.value == (ByteAt(c.bytes, c.offset) != 0, c.(offset := c.offset + 1))
  {
    match ReadByte(c)
    case Err(e) => Err(e)
    case Ok((b, next)) => Ok((b != 0, next))
  }

  /**
   * pushTemporaryLength: read a (signed) length, narrow the limit to that many bytes
   * past the new position and return the limit to restore afterwards.
   */
  function PushTemporaryLength(c: Cursor): (r: Result<(int, Cursor), WireError>)
    ensures r.Ok? ==> r.value.0 == c.limit
    ensures r.Ok? ==> r.value.1.bytes == c.bytes && c.offset < r.value.1.offset <= c.limit
  {
    match ReadVarint32(c)
    case Err(e) => Err(e)
    case Ok((n, next)) => Ok((next.limit, next.(limit := next.offset + n)))
  }

  /** `tag >>> 3` */
  function FieldNumber(tag: int32): (f: nat)
    ensures f < 0x2000_0000
  {
    ToUint32(tag) / 8
  }

  /** `tag & 7` */
  function WireType(tag: int32): (t: nat)
    ensures t < 8
  {
    ToUint32(tag) % 8
  }

  // ---- The bytes the writing side appends ----

  /** writeVarint32: the value after `>>>= 0`, seven bits at a time. */
  function Varint32Bytes(v: int): (r: seq<byte>)
    ensures 1 <= |r| <= 5
  {
    Pow128Values();
    VarintShort(ToUint32(v), 5);
    VarintBytes(ToUint32(v))
  }

  /** writeString: the UTF-8 byte count as a varint, then the UTF-8 bytes. */
  function StringBytes(t: JsString): (r: seq<byte>)
    ensures |r| == |Varint32Bytes(ByteCount(t))| + ByteCount(t)
  {
    Varint32Bytes(ByteCount(t)) + Encode(t)
  }

  /** A nested message: writeVarint32 of its length, then writeByteBuffer of its bytes. */
  function Delimited(inner: seq<byte>): (r: seq<byte>)
    ensures |r| > |inner|
  {
    Varint32Bytes(|inner|) + inner
  }

  /** `writeByte(bb, b ? 1 : 0)` */
  function BoolBytes(b: bool): (r: seq<byte>)
    ensures |r| == 1 && (r[0] != 0 <==> b)
  {
    [if b then 1 else 0]
  }

  // ---- Lemmas ----

  lemma {:induction false} VarintShort(v: nat, k: nat)
    requires 1 <= k && v < Pow128(k)
    ensures |VarintBytes(v)| <= k
    decreases k
  {
    if v >= 0x80 {
      assert VarintBytes(v) == [v % 0x80 + 0x80] + VarintBytes(v / 0x80);
      assert Pow128(1) == 0x80;
      assert v / 0x80 < Pow128(k - 1) by {
        assert Pow128(k) == 0x80 * Pow128(k - 1);
      }
      VarintShort(v / 0x80, k - 1);
    }
  }

  /** From the fifth group on, a group's weight is a multiple of 2^32. */
  lemma {:induction false} Pow128Wraps(k: nat)
    requires k >= 5
    ensures Pow128(k) == TWO_32 * (8 * Pow128(k - 5))
    decreases k
  {
    if k > 5 {
      Pow128Wraps(k - 1);
    } else {
      Pow128Values();
    }
  }

  lemma {:induction false} AtHead(s: seq<byte>, p: int, e: seq<byte>)
    requires At(s, p, e) && |e| > 0
    ensures ByteAt(s, p) == e[0] && At(s, p + 1, e[1..])
  {
    assert s[p + 0] == e[0];
    forall i | 0 <= i < |e| - 1
      ensures s[p + 1 + i] == e[1..][i]
    {
      assert s[p + (i + 1)] == e[i + 1];
    }
  }

  lemma {:induction false} AtConcat(s: seq<byte>, p: int, e: seq<byte>, f: seq<byte>)
    requires At(s, p, e + f)
    ensures At(s, p, e) && At(s, p + |e|, f)
  {
    forall i | 0 <= i < |e|
      ensures s[p + i] == e[i]
    {
      assert (e + f)[i] == e[i];
    }
    forall i | 0 <= i < |f|
      ensures s[p + |e| + i] == f[i]
    {
      assert s[p + (|e| + i)] == (e + f)[|e| + i];
    }
  }

  /** Groups of weight 2^32 or more leave the 32-bit result unchanged. */
  lemma {:induction false} WrapsAway(acc: nat, g: nat, k: nat)
    requires k >= 5
    ensures ToInt32(acc + Weighted(g, k)) == ToInt32(acc)
  {
    Pow128Wraps(k);
    var m := g * 8 * Pow128(k - 5);
    assert Weighted(g, k) == m * TWO_32;
    ToInt32Periodic(acc, m);
  }

  /** Splitting the lowest group off a value. */
  lemma {:induction false} WeightedSplit(w: nat, k: nat)
    ensures Weighted(w % 0x80, k) + Weighted(w / 0x80, k + 1) == Weighted(w, k)
  {
    var weight := Pow128(k);
    assert Pow128(k + 1) == 0x80 * weight;
    SplitGroup(w, weight);
  }

  /** Reading the first byte of bytes stored at the read position. */
  lemma {:induction false} ReadByteAt(s: seq<byte>, p: int, limit: int, e: seq<byte>)
    requires At(s, p, e) && |e| > 0 && p < limit
    ensures ReadByte(Cursor(s, p, limit)) == Ok((e[0], Cursor(s, p + 1, limit)))
    ensures At(s, p + 1, e[1..])
  {
    AtHead(s, p, e);
  }

  /** One seven-bit group split off a value, weighted by `weight`. */
  lemma {:induction false} SplitGroup(w: nat, weight: nat)
    ensures w * weight == (w % 0x80) * weight + (w / 0x80) * (0x80 * weight)
  {
    assert w == w % 0x80 + 0x80 * (w / 0x80);
  }

  lemma {:induction false} Gather32Last(acc: nat, w: nat, k: nat)
    requires w < 0x80
    ensures ToInt32(Gather32(acc, w, k)) == ToInt32(acc + Weighted(w, k))
  {
    if 7 * k >= 32 {
      WrapsAway(acc, w, k);
    }
  }

  lemma {:induction false} Gather32More(acc: nat, w: nat, k: nat)
    requires w >= 0x80
    ensures ToInt32(Gather32(acc, w % 0x80 + 0x80, k) + Weighted(w / 0x80, k + 1)) == ToInt32(acc + Weighted(w, k))
  {
    var g := w % 0x80;
    var lo := Weighted(g, k);
    var hi := Weighted(w / 0x80, k + 1);
    WeightedSplit(w, k);
    assert lo + hi == Weighted(w, k);
    DivUnique(g + 0x80, 0x80, 1, g);
    var gathered := Gather32(acc, g + 0x80, k);
    if 7 * k >= 32 {
      assert gathered == acc;
      WrapsAway(acc, w / 0x80, k + 1);
      WrapsAway(acc, w, k);
    } else {
      assert gathered == acc + lo;
      assert gathered + hi == acc + Weighted(w, k);
    }
  }

  lemma {:induction false} Gather64More(acc: nat, w: nat, k: nat)
    ensures Gather64(acc, w % 0x80 + 0x80, k) + Weighted(w / 0x80, k + 1) == acc + Weighted(w, k)
  {
    WeightedSplit(w, k);
  }

  lemma {:induction false} ReadVarint32Last(c: Cursor, k: nat, acc: nat, w: nat)
    requires w < 0x80 && ReadByte(c).Ok? && ReadByte(c).value.0 == w
    ensures ReadVarint32From(c, k, acc) == Ok((ToInt32(acc + Weighted(w, k)), ReadByte(c).value.1))
  {
    Gather32Last(acc, w, k);
  }

  lemma {:induction false} ReadVarint32More(c: Cursor, k: nat, acc: nat, b: byte)
    requires b >= 0x80 && ReadByte(c).Ok? && ReadByte(c).value.0 == b
    ensures ReadVarint32From(c, k, acc) == ReadVarint32From(ReadByte(c).value.1, k + 1, Gather32(acc, b, k))
  {
  }

  lemma {:induction false} ReadVarint32FromOf(s: seq<byte>, p: int, limit: int, w: nat, k: nat, acc: nat)
    requires At(s, p, VarintBytes(w)) && p + |VarintBytes(w)| <= limit
    ensures ReadVarint32From(Cursor(s, p, limit), k, acc)
         == Ok((ToInt32(acc + Weighted(w, k)), Cursor(s, p + |VarintBytes(w)|, limit)))
    decreases w
  {
    var e := VarintBytes(w);
    ReadByteAt(s, p, limit, e);
    var c := Cursor(s, p, limit);
    if w < 0x80 {
      assert e == [w];
      ReadVarint32Last(c, k, acc, w);
    } else {
      assert e[0] == w % 0x80 + 0x80;
      assert e[1..] == VarintBytes(w / 0x80);
      ReadVarint32More(c, k, acc, e[0]);
      ReadVarint32FromOf(s, p + 1, limit, w / 0x80, k + 1, Gather32(acc, e[0], k));
      Gather32More(acc, w, k);
    }
  }

  /**
   * readVarint32 of writeVarint32's bytes (or of any varint, such as writeVarint64's)
   * gives back the value's low 32 bits as an int32, and moves past exactly those bytes.
   */
  lemma {:induction false} ReadVarint32Of(s: seq<byte>, p: int, limit: int, v: nat)
    requires At(s, p, VarintBytes(v)) && p + |VarintBytes(v)| <= limit
    ensures ReadVarint32(Cursor(s, p, limit)) == Ok((ToInt32(v), Cursor(s, p + |VarintBytes(v)|, limit)))
  {
    ReadVarint32FromOf(s, p, limit, v, 0, 0);
  }

  /** writeVarint32 then readVarint32 returns the same 32-bit pattern; exactly v for every int32 v. */
  lemma {:induction false} Varint32RoundTrip(s: seq<byte>, p: int, limit: int, v: int)
    requires At(s, p, Varint32Bytes(v)) && p + |Varint32Bytes(v)| <= limit
    ensures ReadVarint32(Cursor(s, p, limit)) == Ok((ToInt32(v), Cursor(s, p + |Varint32Bytes(v)|, limit)))
    ensures -(TWO_31 as int) <= v < TWO_31 ==> ToInt32(v) == v
  {
    var u := ToUint32(v);
    assert Varint32Bytes(v) == VarintBytes(u);
    ReadVarint32Of(s, p, limit, u);
    assert ToInt32(u) == ToInt32(v) by {
      assert u % TWO_32 == v % TWO_32;
    }
    if -(TWO_31 as int) <= v < TWO_31 {
      Int32Fixed(v);
    }
  }

  /** The last byte of a varint ends readVarint64's loop. */
  lemma {:induction false} ReadVarint64Last(c: Cursor, k: nat, acc: nat, w: nat)
    requires w < 0x80 && ReadByte(c).Ok? && ReadByte(c).value.0 == w
    ensures ReadVarint64From(c, k, acc) == Ok((acc + Weighted(w, k), ReadByte(c).value.1))
  {
    assert Gather64(acc, w, k) == acc + Weighted(w, k);
  }

  /** A byte with the continuation bit moves readVarint64's loop on, before its tenth byte. */
  lemma {:induction false} ReadVarint64More(c: Cursor, next: Cursor, k: nat, acc: nat, b: byte,
                                            sub: nat, subEnd: Cursor, total: nat, end: Cursor)
    requires k < 9 && b >= 0x80 && ReadByte(c) == Ok((b, next))
    requires ReadVarint64From(next, k + 1, Gather64(acc, b, k)) == Ok((sub, subEnd))
    requires sub == total && subEnd == end
    ensures ReadVarint64From(c, k, acc) == Ok((total, end))
  {
  }

  lemma {:induction false} ReadVarint64FromOf(s: seq<byte>, p: int, limit: int, w: nat, k: nat, acc: nat)
    requires k + |VarintBytes(w)| <= 10
    requires At(s, p, VarintBytes(w)) && p + |VarintBytes(w)| <= limit
    ensures ReadVarint64From(Cursor(s, p, limit), k, acc)
         == Ok((acc + Weighted(w, k), Cursor(s, p + |VarintBytes(w)|, limit)))
    decreases w, 1
  {
    if w < 0x80 {
      var e := VarintBytes(w);
      ReadByteAt(s, p, limit, e);
      assert e == [w];
      ReadVarint64Last(Cursor(s, p, limit), k, acc, w);
    } else {
      ReadVarint64FromOfMore(s, p, limit, w, k, acc);
    }
  }

  /** The same for a varint of more than one byte: its first group, then the rest. */
  lemma {:induction false} ReadVarint64FromOfMore(s: seq<byte>, p: int, limit: int, w: nat, k: nat, acc: nat)
    requires w >= 0x80 && k + |VarintBytes(w)| <= 10
    requires At(s, p, VarintBytes(w)) && p + |VarintBytes(w)| <= limit
    ensures ReadVarint64From(Cursor(s, p, limit), k, acc)
         == Ok((acc + Weighted(w, k), Cursor(s, p + |VarintBytes(w)|, limit)))
    decreases w, 0
  {
    var e := VarintBytes(w);
    ReadByteAt(s, p, limit, e);
    var b, rest := e[0], w / 0x80;
    assert b == w % 0x80 + 0x80;
    assert e[1..] == VarintBytes(rest);
    ReadVarint64FromOf(s, p + 1, limit, rest, k + 1, Gather64(acc, b, k));
    Gather64More(acc, w, k);
    ReadVarint64More(Cursor(s, p, limit), Cursor(s, p + 1, limit), k, acc, b,
      Gather64(acc, b, k) + Weighted(rest, k + 1), Cursor(s, p + 1 + |VarintBytes(rest)|, limit),
      acc + Weighted(w, k), Cursor(s, p + |VarintBytes(w)|, limit));
  }

  /** readVarint64 of writeVarint64's bytes rebuilds the same low and high words. */
  lemma {:induction false} Varint64RoundTrip(s: seq<byte>, p: int, limit: int, l: Long, unsigned: bool)
    requires At(s, p, Varint64Bytes(l)) && p + |Varint64Bytes(l)| <= limit
    ensures ReadVarint64(Cursor(s, p, limit), unsigned)
         == Ok((Long(l.low, l.high, unsigned), Cursor(s, p + |Varint64Bytes(l)|, limit)))
  {
    var v := LongBits(l);
    assert Varint64Bytes(l) == VarintBytes(v);
    ReadVarint64FromOf(s, p, limit, v, 0, 0);
    assert 0 + Weighted(v, 0) == v;
    LongFromOwnBits(l, unsigned);
  }

  /**
   * The int32 fields written with `writeVarint64(bb, intToLong(v))` (ten bytes when v < 0)
   * and read with readVarint32 come back unchanged.
   */
  lemma {:induction false} Int32AsVarint64RoundTrip(s: seq<byte>, p: int, limit: int, v: int32)
    requires At(s, p, Varint64Bytes(IntToLong(v))) && p + |Varint64Bytes(IntToLong(v))| <= limit
    ensures ReadVarint32(Cursor(s, p, limit)) == Ok((v, Cursor(s, p + |Varint64Bytes(IntToLong(v))|, limit)))
    ensures v < 0 ==> |Varint64Bytes(IntToLong(v))| == 10
  {
    var l := IntToLong(v);
    ReadVarint32Of(s, p, limit, LongBits(l));
    assert LongBits(l) % TWO_32 == ToUint32(v);
    assert ToInt32(LongBits(l)) == v by {
      Int32Fixed(v);
    }
    if v < 0 {
      NegativeLongBits(v);
      VarintLength(LongBits(l), 10) by {
        Pow128Values();
      }
    }
  }

  /** A negative int32 sign-extends to a Long whose high word is all ones. */
  lemma {:induction false} NegativeLongBits(v: int32)
    requires v < 0
    ensures LongBits(IntToLong(v)) >= 0x8000_0000_0000_0000
  {
    var l := IntToLong(v);
    Int32Fixed(v);
    assert l.high == -1;
    assert ToUint32(l.high) == 0xFFFF_FFFF;
  }

  /** An inner `| 0` (or `<<`) does not change the 32 bits of a sum. */
  lemma {:induction false} Absorb32(a: int, x: int)
    ensures ToInt32(a + ToInt32(x)) == ToInt32(a + x)
  {
    var r := ToInt32(x);
    var q := (x - r) / TWO_32;
    assert x - r == q * TWO_32;
    ToInt32Periodic(a + r, q);
  }

  /**
   * readVarint64's three words, reassembled with `low: part0 | (part1 << 28)` and
   * `high: (part1 >>> 4) | (part2 << 24)`, give the Long of `part0 + part1·2^28 + part2·2^56`
   * modulo 2^64: the sum of the groups that ReadVarint64From accumulates.
   */
  lemma {:induction false} Reassembly(part0: nat, part1: nat, part2: nat, unsigned: bool)
    requires part0 < 0x1000_0000 && part1 < 0x1000_0000 && part2 < 0x4000
    ensures LongFromBits(part0 + part1 * 0x1000_0000 + part2 * 0x100_0000_0000_0000, unsigned)
         == Long(ToInt32(part0 + ToInt32(part1 * 0x1000_0000)),
                 ToInt32(part1 / 0x10 + ToInt32(part2 * 0x100_0000)), unsigned)
  {
    var lowSum := LowWordOf(part0, part1);
    var hi, top := HighWordOf(part1, part2);
    var bits := part0 + part1 * 0x1000_0000 + part2 * 0x100_0000_0000_0000;
    assert bits == lowSum + (part1 / 0x10 + part2 * 0x100_0000) * TWO_32;
    assert bits == lowSum + hi * TWO_32 + top * TWO_64;
    WordsOf(bits, lowSum, hi, top, unsigned);
  }

  /** The low word: part0 and the low four bits of part1; the rest of part1 is a multiple of 2^32. */
  lemma {:induction false} LowWordOf(part0: nat, part1: nat) returns (lowSum: nat)
    requires part0 < 0x1000_0000
    ensures lowSum < TWO_32
    ensures part0 + part1 * 0x1000_0000 == lowSum + (part1 / 0x10) * TWO_32
    ensures ToInt32(part0 + ToInt32(part1 * 0x1000_0000)) == ToInt32(lowSum)
  {
    lowSum := part0 + (part1 % 0x10) * 0x1000_0000;
    assert part1 == part1 % 0x10 + 0x10 * (part1 / 0x10);
    assert part1 * 0x1000_0000 == (part1 % 0x10) * 0x1000_0000 + (part1 / 0x10) * TWO_32;
    Absorb32(part0, part1 * 0x1000_0000);
    ToInt32Periodic(lowSum, part1 / 0x10);
  }

  /** The high word: the 32 bits of `(part1 >>> 4) | (part2 << 24)`, and what lies above them. */
  lemma {:induction false} HighWordOf(part1: nat, part2: nat) returns (hi: nat, top: int)
    ensures hi < TWO_32
    ensures part1 / 0x10 + part2 * 0x100_0000 == hi + top * TWO_32
    ensures ToInt32(part1 / 0x10 + ToInt32(part2 * 0x100_0000)) == ToInt32(hi)
  {
    var highSum := part1 / 0x10 + part2 * 0x100_0000;
    hi := highSum % TWO_32;
    top := highSum / TWO_32;
    Absorb32(part1 / 0x10, part2 * 0x100_0000);
    ToInt32Periodic(hi, top);
  }

  /** A value of two words (and bits above 2^64, which LongFromBits drops). */
  lemma {:induction false} WordsOf(bits: int, lowSum: nat, hi: nat, top: int, unsigned: bool)
    requires lowSum < TWO_32 && hi < TWO_32 && bits == lowSum + hi * TWO_32 + top * TWO_64
    ensures LongFromBits(bits, unsigned) == Long(ToInt32(lowSum), ToInt32(hi), unsigned)
  {
    var b := lowSum + hi * TWO_32;
    DivUnique(bits, TWO_64, top, b);
    DivUnique(b, TWO_32, hi, lowSum);
  }

  lemma {:induction false} WindowOfAt(s: seq<byte>, q: int, e: seq<byte>)
    requires At(s, q, e)
    ensures Window(s, q, |e|) == e
  {
    forall i | 0 <= i < |e|
      ensures Window(s, q, |e|)[i] == e[i]
    {
      assert Window(s, q, |e|)[i] == ByteAt(s, q + i);
      assert s[q + i] == e[i];
    }
  }

  /** readString of bytes stored at the read position decodes exactly those bytes. */
  lemma {:induction false} ReadStringAt(s: seq<byte>, q: int, limit: int, e: seq<byte>)
    requires At(s, q, e) && q + |e| <= limit
    ensures ReadString(Cursor(s, q, limit), |e|) == Ok((Decode(e), Cursor(s, q + |e|, limit)))
  {
    var c := Cursor(s, q, limit);
    var w := Window(s, q, |e|);
    WindowOfAt(s, q, e);
    var r := ReadString(c, |e|);
    assert r.Ok?;
    assert r.value.1 == Cursor(s, q + |e|, limit);
    assert r.value.0 == Decode(w);
    assert r == Ok((Decode(w), Cursor(s, q + |e|, limit)));
  }

  /** A length prefix written by writeVarint32 reads back as that length when read unsigned. */
  lemma {:induction false} ReadLengthOf(s: seq<byte>, p: int, limit: int, n: nat, q: int)
    requires n < TWO_32
    requires At(s, p, Varint32Bytes(n)) && q == p + |Varint32Bytes(n)| && q <= limit
    ensures ReadLength(Cursor(s, p, limit)) == Ok((n, Cursor(s, q, limit)))
  {
    var c := Cursor(s, p, limit);
    Varint32RoundTrip(s, p, limit, n);
    Uint32Fixed(n);
    assert ReadVarint32(c) == Ok((ToInt32(n), Cursor(s, q, limit)));
    var r := ReadLength(c);
    assert r.Ok? && r.value.1 == Cursor(s, q, limit);
    assert r.value.0 == n;
  }

  /** A length prefix followed by that many bytes reads as the decoding of those bytes. */
  lemma {:induction false} ReadStringFieldAt(s: seq<byte>, p: int, limit: int, e: seq<byte>)
    requires |e| < TWO_32
    requires At(s, p, Varint32Bytes(|e|) + e) && p + |Varint32Bytes(|e|)| + |e| <= limit
    ensures ReadStringField(Cursor(s, p, limit)) == Ok((Decode(e), Cursor(s, p + |Varint32Bytes(|e|)| + |e|, limit)))
  {
    var q := SplitPrefix(s, p, e);
    ReadPrefixedAt(s, p, limit, e, q);
  }

  /** The same with the signed length, for payloads below 2^31 bytes. */
  lemma {:induction false} ReadStringFieldAsWrittenAt(s: seq<byte>, p: int, limit: int, e: seq<byte>)
    requires |e| < TWO_31
    requires At(s, p, Varint32Bytes(|e|) + e) && p + |Varint32Bytes(|e|)| + |e| <= limit
    ensures ReadStringFieldAsWritten(Cursor(s, p, limit)) == Ok((Decode(e), Cursor(s, p + |Varint32Bytes(|e|)| + |e|, limit)))
  {
    var q := SplitPrefix(s, p, e);
    ReadPrefixedAsWrittenAt(s, p, limit, e, q);
  }

  /** Where the payload after a length prefix starts. */
  lemma {:induction false} SplitPrefix(s: seq<byte>, p: int, e: seq<byte>) returns (q: int)
    requires At(s, p, Varint32Bytes(|e|) + e)
    ensures At(s, p, Varint32Bytes(|e|)) && q == p + |Varint32Bytes(|e|)| && At(s, q, e)
  {
    AtConcat(s, p, Varint32Bytes(|e|), e);
    q := p + |Varint32Bytes(|e|)|;
  }

  lemma {:induction false} ReadPrefixedAt(s: seq<byte>, p: int, limit: int, e: seq<byte>, q: int)
    requires |e| < TWO_32
    requires At(s, p, Varint32Bytes(|e|)) && q == p + |Varint32Bytes(|e|)|
    requires At(s, q, e) && q + |e| <= limit
    ensures ReadStringField(Cursor(s, p, limit)) == Ok((Decode(e), Cursor(s, q + |e|, limit)))
  {
    ReadLengthOf(s, p, limit, |e|, q);
    ReadStringAfter(Cursor(s, p, limit), e, q);
  }

  lemma {:induction false} ReadPrefixedAsWrittenAt(s: seq<byte>, p: int, limit: int, e: seq<byte>, q: int)
    requires |e| < TWO_31
    requires At(s, p, Varint32Bytes(|e|)) && q == p + |Varint32Bytes(|e|)|
    requires At(s, q, e) && q + |e| <= limit
    ensures ReadStringFieldAsWritten(Cursor(s, p, limit)) == Ok((Decode(e), Cursor(s, q + |e|, limit)))
  {
    Varint32RoundTrip(s, p, limit, |e|);
    ReadStringAfterAsWritten(Cursor(s, p, limit), e, q);
  }

  /** Once the length has been read and the bytes follow it, the string read decodes them. */
  lemma {:induction false} ReadStringAfter(c: Cursor, e: seq<byte>, q: int)
    requires ReadLength(c) == Ok((|e|, Cursor(c.bytes, q, c.limit)))
    requires At(c.bytes, q, e) && q + |e| <= c.limit
    ensures ReadStringField(c) == Ok((Decode(e), Cursor(c.bytes, q + |e|, c.limit)))
  {
    ReadStringAt(c.bytes, q, c.limit, e);
  }

  lemma {:induction false} ReadStringAfterAsWritten(c: Cursor, e: seq<byte>, q: int)
    requires ReadVarint32(c) == Ok((|e|, Cursor(c.bytes, q, c.limit)))
    requires At(c.bytes, q, e) && q + |e| <= c.limit
    ensures ReadStringFieldAsWritten(c) == Ok((Decode(e), Cursor(c.bytes, q + |e|, c.limit)))
  {
    ReadStringAt(c.bytes, q, c.limit, e);
  }

  /** writeString then `readString(bb, readVarint32(bb) >>> 0)` returns the text when it is well formed. */
  lemma {:induction false} StringRoundTrip(s: seq<byte>, p: int, limit: int, t: JsString)
    requires WellFormed(t) && ByteCount(t) < TWO_32
    requires At(s, p, StringBytes(t)) && p + |StringBytes(t)| <= limit
    ensures ReadStringField(Cursor(s, p, limit)) == Ok((t, Cursor(s, p + |StringBytes(t)|, limit)))
  {
    var e := EncodedText(t);
    assert StringBytes(t) == Varint32Bytes(|e|) + e;
    ReadStringFieldAt(s, p, limit, e);
    var r := ReadStringField(Cursor(s, p, limit));
    assert r.Ok?;
    assert r.value.0 == t;
    assert r.value.1 == Cursor(s, p + |StringBytes(t)|, limit);
  }

  /** The same holds for the signed length the decoders use, but only below 2^31 bytes. */
  lemma {:induction false} StringRoundTripAsWritten(s: seq<byte>, p: int, limit: int, t: JsString)
    requires WellFormed(t) && ByteCount(t) < TWO_31
    requires At(s, p, StringBytes(t)) && p + |StringBytes(t)| <= limit
    ensures ReadStringFieldAsWritten(Cursor(s, p, limit)) == Ok((t, Cursor(s, p + |StringBytes(t)|, limit)))
  {
    var e := EncodedText(t);
    assert StringBytes(t) == Varint32Bytes(|e|) + e;
    ReadStringFieldAsWrittenAt(s, p, limit, e);
    var r := ReadStringFieldAsWritten(Cursor(s, p, limit));
    assert r.Ok?;
    assert r.value.0 == t;
    assert r.value.1 == Cursor(s, p + |StringBytes(t)|, limit);
  }

  /** The UTF-8 bytes of a well-formed text, named so that the decoding fact is stated about them. */
  lemma {:induction false} EncodedText(t: JsString) returns (e: seq<byte>)
    requires WellFormed(t)
    ensures e == Encode(t) && Decode(e) == t
  {
    e := Encode(t);
    DecodeEncode(t);
  }

  /** The bytes of an IapProductListItem whose sku claims 0xFFFFFFFA bytes: `sku` tag, then the length. */
  const NEGATIVE_SKU: seq<byte> := [0x0A, 0xFA, 0xFF, 0xFF, 0xFF, 0x0F]

  /**
   * As written, the length reads as -6: readString returns "" and moves the offset back
   * to 0, so the decode loop reads the same tag again and never reaches the end.
   */
  lemma {:induction false} NegativeLengthRewinds()
    ensures ReadVarint32(Wrap(NEGATIVE_SKU)) == Ok((10, Cursor(NEGATIVE_SKU, 1, 6)))
    ensures ReadVarint32(Cursor(NEGATIVE_SKU, 1, 6)) == Ok((-6, Cursor(NEGATIVE_SKU, 6, 6)))
    ensures ReadStringFieldAsWritten(Cursor(NEGATIVE_SKU, 1, 6)) == Ok(([], Wrap(NEGATIVE_SKU)))
    ensures SkipUnknownFieldAsWritten(Cursor(NEGATIVE_SKU, 1, 6), 2) == Ok(Wrap(NEGATIVE_SKU))
  {
    NegativeSkuBytes();
    var r := ReadStringFieldAsWritten(Cursor(NEGATIVE_SKU, 1, 6));
    assert r.Ok? && r.value.1 == Wrap(NEGATIVE_SKU);
    assert r.value.0 == Decode([]);
  }

  /** The tag is the varint 10, the length the varint 0xFFFFFFFA, whose 32 bits are -6 as an int32. */
  lemma {:induction false} NegativeSkuBytes()
    ensures ReadVarint32(Wrap(NEGATIVE_SKU)) == Ok((10, Cursor(NEGATIVE_SKU, 1, 6)))
    ensures ReadVarint32(Cursor(NEGATIVE_SKU, 1, 6)) == Ok((-6, Cursor(NEGATIVE_SKU, 6, 6)))
  {
    NegativeSkuTag();
    NegativeSkuLength();
  }

  lemma {:induction false} NegativeSkuTag()
    ensures ReadVarint32(Wrap(NEGATIVE_SKU)) == Ok((10, Cursor(NEGATIVE_SKU, 1, 6)))
  {
    var e := TagBytes();
    assert At(NEGATIVE_SKU, 0, e) by {
      assert NEGATIVE_SKU[0 + 0] == e[0];
    }
    ReadVarint32Of(NEGATIVE_SKU, 0, 6, 10);
    Int32Fixed(10);
  }

  lemma {:induction false} TagBytes() returns (e: seq<byte>)
    ensures e == VarintBytes(10) && e == [0x0A]
  {
    e := [0x0A];
  }

  lemma {:induction false} NegativeSkuLength()
    ensures ReadVarint32(Cursor(NEGATIVE_SKU, 1, 6)) == Ok((-6, Cursor(NEGATIVE_SKU, 6, 6)))
  {
    var e := LengthBytes();
    assert At(NEGATIVE_SKU, 1, e) by {
      forall i | 0 <= i < |e| ensures NEGATIVE_SKU[1 + i] == e[i] {
        assert NEGATIVE_SKU[1..] == e;
      }
    }
    ReadVarint32Of(NEGATIVE_SKU, 1, 6, 0xFFFF_FFFA);
    MinusSix();
  }

  lemma {:induction false} LengthBytes() returns (e: seq<byte>)
    ensures e == VarintBytes(0xFFFF_FFFA) && e == [0xFA, 0xFF, 0xFF, 0xFF, 0x0F]
  {
    assert VarintBytes(0x0F) == [0x0F];
    assert VarintBytes(0x7FF) == [0xFF] + VarintBytes(0x0F);
    assert VarintBytes(0x3_FFFF) == [0xFF] + VarintBytes(0x7FF);
    assert VarintBytes(0x1FF_FFFF) == [0xFF] + VarintBytes(0x3_FFFF);
    assert VarintBytes(0xFFFF_FFFA) == [0xFA] + VarintBytes(0x1FF_FFFF);
    e := [0xFA, 0xFF, 0xFF, 0xFF, 0x0F];
  }

  lemma {:induction false} MinusSix()
    ensures ToInt32(0xFFFF_FFFA) == -6
  {
  }

  /** Read unsigned, the same length is 4294967290 bytes, past the limit: the decode stops with an error. */
  lemma {:induction false} UnsignedLengthRejected()
    ensures ReadStringField(Cursor(NEGATIVE_SKU, 1, 6)) == Err(ReadPastLimit)
    ensures SkipUnknownField(Cursor(NEGATIVE_SKU, 1, 6), 2) == Err(SkipPastLimit)
  {
    NegativeSkuBytes();
  }
}
