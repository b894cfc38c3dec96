// The mutable ByteBuffer of the generated runtime: a Uint8Array with a read/write
// position and a limit. Every read and write is proved against the cursor functions of
// module Wire and the byte sequences of module Varint, which state what it computes.
module Buffer {
  import opened Wrappers
  import opened JsNumbers
  import opened Utf8
  import opened Varint
  import opened Wire
  import opened Records

  function Max(a: int, b: int): int {
    if a < b then b else a
  }

  class ByteBuffer {
    var bytes: array<byte>
    var offset: int
    var limit: int

    /** The buffer as the reading side sees it. */
    function View(): Cursor
      reads this, bytes
    {
      Cursor(bytes[..], offset, limit)
    }

    /** A buffer being written: every write appends at the limit. */
    predicate Writing()
      reads this
    {
      0 <= offset == limit <= bytes.Length
    }

    /** toUint8Array: the bytes below the limit. */
    function Written(): (r: seq<byte>)
      requires Writing()
      reads this, bytes
      ensures |r| == limit
    {
      bytes[..limit]
    }

    /** popByteBuffer with an empty pool: 64 zero bytes, offset and limit 0. */
    constructor Fresh()
      ensures Writing() && Written() == [] && bytes.Length == 64 && fresh(bytes)
    {
      bytes := new byte[64](_ => 0);
      offset, limit := 0, 0;
    }

    /** wrapByteBuffer: read the whole array from the start. */
    constructor Wrap(s: seq<byte>)
      ensures View() == Wire.Wrap(s) && fresh(bytes)
    {
      bytes := new byte[|s|](i requires 0 <= i < |s| => s[i]);
      offset, limit := 0, |s|;
    }

    // ---- Reading ----

    /** advance: the old offset, or "Read past limit" (thrown before anything moves). */
    method Advance(count: int) returns (r: Result<int, WireError>)
      modifies this
      ensures bytes == old(bytes) && limit == old(limit)
      ensures var s := Wire.Advance(old(View()), count);
              (r.Err? <==> s.Err?) && (r.Err? ==> r.error == s.error && offset == old(offset))
              && (r.Ok? ==> r.value == s.value.0 && View() == s.value.1)
    {
      var at := offset;
      if at + count > limit {
        return Err(ReadPastLimit);
      }
      offset := offset + count;
      return Ok(at);
    }

    /** skip: like advance, with "Skip past limit". */
    method Skip(count: int) returns (r: Result<(), WireError>)
      modifies this
      ensures bytes == old(bytes) && limit == old(limit)
      ensures var s := Wire.Skip(old(View()), count);
              (r.Err? <==> s.Err?) && (r.Err? ==> r.error == s.error && offset == old(offset))
              && (r.Ok? ==> View() == s.value)
    {
      if offset + count > limit {
        return Err(SkipPastLimit);
      }
      offset := offset + count;
      return Ok(());
    }

    /** readByte: `bb.bytes[advance(bb, 1)]`, where an index outside the array reads as 0. */
    method ReadByte() returns (r: Result<byte, WireError>)
      modifies this
      ensures bytes == old(bytes) && limit == old(limit)
      ensures var s := Wire.ReadByte(old(View()));
              (r.Err? <==> s.Err?) && (r.Err? ==> r.error == s.error)
              && (r.Ok? ==> r.value == s.value.0 && View() == s.value.1)
    {
      var at := Advance(1);
      if at.Err? {
        return Err(at.error);
      }
      var i := at.value;
      return Ok(if 0 <= i < bytes.Length then bytes[i] else 0);
    }

    /** readVarint32: the do-while loop over the bytes with the high bit set. */
    method ReadVarint32() returns (r: Result<int32, WireError>)
      modifies this
      ensures bytes == old(bytes) && limit == old(limit)
      ensures var s := Wire.ReadVarint32(old(View()));
              (r.Err? <==> s.Err?) && (r.Err? ==> r.error == s.error)
              && (r.Ok? ==> r.value == s.value.0 && View() == s.value.1)
    {
      var k: nat := 0;
      var value: nat := 0;
      while true
        invariant bytes == old(bytes) && limit == old(limit)
        invariant ReadVarint32From(View(), k, value) == ReadVarint32From(old(View()), 0, 0)
        decreases limit - offset
      {
        var b := ReadByte();
        if b.Err? {
          return Err(b.error);
        }
        value := Gather32(value, b.value, k);
        k := k + 1;
        if b.value < 0x80 {
          return Ok(ToInt32(value));
        }
      }
    }

    /**
     * readVarint64: up to ten bytes, the loop standing for the source's nested `if (b & 0x80)`
     * reads; the groups are gathered as one sum and split into the two words at the end.
     */
    method ReadVarint64(unsigned: bool) returns (r: Result<Long, WireError>)
      modifies this
      ensures bytes == old(bytes) && limit == old(limit)
      ensures var s := Wire.ReadVarint64(old(View()), unsigned);
              (r.Err? <==> s.Err?) && (r.Err? ==> r.error == s.error)
              && (r.Ok? ==> r.value == s.value.0 && View() == s.value.1)
    {
      var k: nat := 0;
      var value: nat := 0;
      while true
        invariant bytes == old(bytes) && limit == old(limit)
        invariant k <= 9
        invariant ReadVarint64From(View(), k, value) == ReadVarint64From(old(View()), 0, 0)
        decreases limit - offset
      {
        var b := ReadByte();
        if b.Err? {
          return Err(b.error);
        }
        value := Gather64(value, b.value, k);
        if b.value < 0x80 || k == 9 {
          return Ok(LongFromBits(value, unsigned));
        }
        k := k + 1;
      }
    }

    /** `!!readByte(bb)` */
    method ReadBool() returns (r: Result<bool, WireError>)
      modifies this
      ensures bytes == old(bytes) && limit == old(limit)
      ensures var s := Wire.ReadBool(old(View()));
              (r.Err? <==> s.Err?) && (r.Ok? ==> r.value == s.value.0 && View() == s.value.1)
    {
      var b := ReadByte();
      if b.Err? {
        return Err(b.error);
      }
      return Ok(b.value != 0);
    }

    /** readString: advance past `count` bytes and decode them as UTF-8. */
    method ReadString(count: int) returns (r: Result<JsString, WireError>)
      modifies this
      ensures bytes == old(bytes) && limit == old(limit)
      ensures var s := Wire.ReadString(old(View()), count);
              (r.Err? <==> s.Err?) && (r.Err? ==> r.error == s.error)
              && (r.Ok? ==> r.value == s.value.0 && View() == s.value.1)
    {
      var start := Advance(count);
      if start.Err? {
        return Err(start.error);
      }
      return Ok(Decode(Window(bytes[..], start.value, count)));
    }

    /**
     * A length prefix read as unsigned (`readVarint32(bb) >>> 0`): the corrected read. The
     * generated decoders take the signed `readVarint32(bb)` itself (Wire.ReadStringFieldAsWritten).
     */
    method ReadLength() returns (r: Result<uint32, WireError>)
      modifies this
      ensures bytes == old(bytes) && limit == old(limit)
      ensures var s := Wire.ReadLength(old(View()));
              (r.Err? <==> s.Err?) && (r.Err? ==> r.error == s.error)
              && (r.Ok? ==> r.value == s.value.0 && View() == s.value.1)
    {
      var n := ReadVarint32();
      if n.Err? {
        return Err(n.error);
      }
      return Ok(ToUint32(n.value));
    }

    /** A string field's payload with the corrected, unsigned length, then readString. */
    method ReadStringField() returns (r: Result<JsString, WireError>)
      modifies this
      ensures bytes == old(bytes) && limit == old(limit)
      ensures var s := Wire.ReadStringField(old(View()));
              (r.Err? <==> s.Err?) && (r.Err? ==> r.error == s.error)
              && (r.Ok? ==> r.value == s.value.0 && View() == s.value.1)
    {
      var n := ReadLength();
      if n.Err? {
        return Err(n.error);
      }
      r := ReadString(n.value);
    }

    /** skipUnknownField, corrected: the wire type 2 length is read unsigned. */
    method SkipUnknownField(wireType: int) returns (r: Result<(), WireError>)
      modifies this
      ensures bytes == old(bytes) && limit == old(limit)
      ensures var s := Wire.SkipUnknownField(old(View()), wireType);
              (r.Err? <==> s.Err?) && (r.Err? ==> r.error == s.error) && (r.Ok? ==> View() == s.value)
    {
      if wireType == 0 {
        // while (readByte(bb) & 0x80) { }
        while true
          invariant bytes == old(bytes) && limit == old(limit)
          invariant SkipVarint(View()) == SkipVarint(old(View()))
          decreases limit - offset
        {
          var b := ReadByte();
          if b.Err? {
            return Err(b.error);
          }
          if b.value < 0x80 {
            return Ok(());
          }
        }
      } else if wireType == 2 {
        var n := ReadLength();
        if n.Err? {
          return Err(n.error);
        }
        r := Skip(n.value);
      } else if wireType == 5 {
        r := Skip(4);
      } else if wireType == 1 {
        r := Skip(8);
      } else {
        return Err(UnimplementedType(wireType));
      }
    }

    /** pushTemporaryLength: narrow the limit to the declared length and return the limit to restore. */
    method PushTemporaryLength() returns (r: Result<int, WireError>)
      modifies this
      ensures bytes == old(bytes)
      ensures var s := Wire.PushTemporaryLength(old(View()));
              (r.Err? <==> s.Err?) && (r.Err? ==> r.error == s.error)
              && (r.Ok? ==> r.value == s.value.0 && View() == s.value.1)
    {
      var length := ReadVarint32();
      if length.Err? {
        return Err(length.error);
      }
      var saved := limit;
      limit := offset + length.value;
      return Ok(saved);
    }

    // ---- Writing ----

    /**
     * grow: make room for `count` more bytes at the offset (a new array of twice the final
     * offset when the old one is too short, the old bytes copied to its front), move the
     * offset past them, raise the limit to the new offset, and return the old offset.
     */
    method Grow(count: nat) returns (start: int)
      requires 0 <= offset
      modifies this
      ensures start == old(offset) && offset == old(offset) + count && limit == Max(old(limit), offset)
      ensures offset <= bytes.Length && old(bytes.Length) <= bytes.Length
      ensures bytes[..old(bytes.Length)] == old(bytes[..])
      ensures bytes == old(bytes) || (fresh(bytes) && bytes.Length == 2 * offset)
    {
      start := offset;
      var finalOffset := offset + count;
      if finalOffset > bytes.Length {
        var newBytes := new byte[finalOffset * 2](_ => 0);
        forall i | 0 <= i < bytes.Length {
          newBytes[i] := bytes[i];
        }
        bytes := newBytes;
      }
      offset := finalOffset;
      if finalOffset > limit {
        limit := finalOffset;
      }
    }

    /** writeByte: one byte appended. */
    method WriteByte(value: byte)
      requires Writing()
      modifies this, bytes
      ensures Writing() && Written() == old(Written()) + [value]
      ensures bytes == old(bytes) || fresh(bytes)
    {
      var at := Grow(1);
      bytes[at] := value;
    }

    /**
     * writeVarint32: the value after `>>>= 0`, seven bits at a time, 0x80 set on every
     * byte but the last.
     */
    method WriteVarint32(value: int)
      requires Writing()
      modifies this, bytes
      ensures Writing() && Written() == old(Written()) + Varint32Bytes(value)
      ensures bytes == old(bytes) || fresh(bytes)
    {
      var v: nat := ToUint32(value);
      ghost var total := Written() + VarintBytes(v);
      while v >= 0x80
        invariant Writing() && (bytes == old(bytes) || fresh(bytes))
        invariant Written() + VarintBytes(v) == total
        decreases v
      {
        ghost var w, rest, u, tail := Written(), VarintBytes(v), [v % 0x80 + 0x80], VarintBytes(v / 0x80);
        assert rest == u + tail;
        WriteByte(v % 0x80 + 0x80);
        SeqShift(w, u, rest, tail, total);
        v := v / 0x80;
      }
      ghost var w := Written();
      WriteByte(v);
      SeqShift(w, [v], VarintBytes(v), [], total);
      assert Written() + [] == Written();
    }

    /**
     * writeVarint64: the size ladder picks the number of bytes, grow makes room for them,
     * and the fall-through switch stores every byte of the room.
     */
    method WriteVarint64(value: Long)
      requires Writing()
      modifies this, bytes
      ensures Writing() && Written() == old(Written()) + Varint64Bytes(value)
      ensures bytes == old(bytes) || fresh(bytes)
    {
      var parts := Varint64Parts(value);
      var size := Varint64Size(parts.0, parts.1, parts.2);
      ghost var before := Written();
      var at := Grow(size);
      forall k | 0 <= k < size {
        bytes[at + k] := SwitchByte(parts.0, parts.1, parts.2, size, k);
      }
      assert Written()[..at] == before;
      assert Written()[at..] == Varint64Bytes(value);
      assert Written() == Written()[..at] + Written()[at..];
    }

    /** writeByteBuffer: grow by the other buffer's limit and copy its bytes in a loop. */
    method WriteByteBuffer(other: ByteBuffer)
      requires Writing() && other.Writing() && other != this && other.bytes != bytes
      modifies this, bytes
      ensures Writing() && Written() == old(Written()) + old(other.Written())
      ensures bytes == old(bytes) || fresh(bytes)
    {
      ghost var before := Written();
      ghost var added := other.Written();
      var at := Grow(other.limit);
      var from := bytes;
      var to := other.bytes;
      var n := other.limit;
      var i := 0;
      while i < n
        invariant 0 <= i <= n && from == bytes && Writing() && limit == at + n
        invariant to != from && n <= to.Length && to[..n] == added
        invariant bytes == old(bytes) || fresh(bytes)
        invariant bytes[..at] == before
        invariant bytes[at..at + i] == added[..i]
      {
        from[i + at] := to[i];
        i := i + 1;
      }
      assert Written() == bytes[..at] + bytes[at..at + n];
    }

    /**
     * writeString: a first loop sums the UTF-8 byte counts of the numbers the text
     * encodes, the count is written as a varint, grow makes room, and a second loop
     * stores the bytes of each number.
     */
    method WriteString(text: JsString)
      requires Writing()
      modifies this, bytes
      ensures Writing() && Written() == old(Written()) + StringBytes(text)
      ensures bytes == old(bytes) || fresh(bytes)
    {
      var byteCount := CountBytes(text);
      ghost var start, length := Written(), Varint32Bytes(byteCount);
      WriteVarint32(byteCount);
      ghost var prefix, room := Written(), bytes.Length;
      var at := Grow(byteCount);
      assert bytes[..at] == prefix by {
        assert bytes[..at] == bytes[..room][..at];
      }
      StoreText(text, at);
      SeqExtend(prefix, start, length, Encode(text));
    }

    /** writeString's first loop: the UTF-8 length of the text. */
    static method CountBytes(text: JsString) returns (byteCount: nat)
      ensures byteCount == ByteCount(text)
    {
      var n := |text|;
      byteCount := 0;
      var i := 0;
      while i < n
        invariant 0 <= i <= n
        invariant byteCount + ByteCount(text[i..]) == ByteCount(text)
      {
        var c, w := NextCodePoint(text, i);
        byteCount := byteCount + Utf8Size(c);
        i := i + w;
      }
    }

    /** writeString's second loop: the text's bytes stored from `at` into the room grow made. */
    method StoreText(text: JsString, at: int)
      requires 0 <= at && at + ByteCount(text) == limit && Writing()
      modifies bytes
      ensures Writing() && Written() == old(bytes[..at]) + Encode(text)
    {
      var n := |text|;
      var o := at;
      var i := 0;
      ghost var prefix := bytes[..at];
      ghost var done: seq<byte> := [];
      while i < n
        invariant 0 <= i <= n
        invariant at <= o <= limit && o + ByteCount(text[i..]) == limit
        invariant bytes[..o] == prefix + done
        invariant done + Encode(text[i..]) == Encode(text)
      {
        var c, w := NextCodePoint(text, i);
        ghost var cur, u := bytes[..o], Utf8Of(c);
        o := StoreCodePoint(c, o);
        assert bytes[..o] == cur + u;
        SeqExtend(cur, prefix, done, u);
        SeqShift(done, u, Encode(text[i..]), Encode(text[i + w..]), Encode(text));
        done := done + u;
        i := i + w;
      }
      assert text[n..] == [];
      assert o == limit && done == Encode(text);
    }

    /**
     * `c = text.charCodeAt(i)`, combined with the next unit when it is a high surrogate
     * and one follows: the number writeString encodes at i and the units it takes.
     */
    static method NextCodePoint(text: JsString, i: nat) returns (c: nat, w: nat)
      requires i < |text|
      ensures (c, w) == HeadCodePoint(text[i..]) && i + w <= |text|
      ensures ByteCount(text[i..]) == Utf8Size(c) + ByteCount(text[i + w..])
      ensures Encode(text[i..]) == Utf8Of(c) + Encode(text[i + w..])
    {
      c, w := text[i], 1;
      if IsHighSurrogate(c) && i + 1 < |text| {
        c, w := c * 0x400 + text[i + 1] - 0x35F_DC00, 2;
      }
      assert text[i..][w..] == text[i + w..];
    }

    /** The second loop's body for one number: one to four `bytes[offset++] = ...` stores. */
    method StoreCodePoint(c: nat, o: int) returns (o': int)
      requires c <= 0x11_1FFF && 0 <= o && o + Utf8Size(c) <= bytes.Length
      modifies bytes
      ensures o' == o + Utf8Size(c) && bytes[..o'] == old(bytes[..o]) + Utf8Of(c)
    {
      o' := o;
      if c < 0x80 {
        bytes[o'] := c; o' := o' + 1;
      } else {
        if c < 0x800 {
          bytes[o'] := (c / 0x40) % 0x20 + 0xC0; o' := o' + 1;
        } else {
          if c < 0x1_0000 {
            bytes[o'] := (c / 0x1000) % 0x10 + 0xE0; o' := o' + 1;
          } else {
            bytes[o'] := (c / 0x4_0000) % 0x8 + 0xF0; o' := o' + 1;
            bytes[o'] := (c / 0x1000) % 0x40 + 0x80; o' := o' + 1;
          }
          bytes[o'] := (c / 0x40) % 0x40 + 0x80; o' := o' + 1;
        }
        bytes[o'] := c % 0x40 + 0x80; o' := o' + 1;
      }
    }

    // ---- ZigZag ----

    /** writeVarint32ZigZag: `(value << 1) ^ (value >> 31)` as a varint. */
    method WriteVarint32ZigZag(value: int32)
      requires Writing()
      modifies this, bytes
      ensures Writing() && Written() == old(Written()) + Varint32Bytes(ZigZag32(value))
      ensures bytes == old(bytes) || fresh(bytes)
    {
      WriteVarint32(ZigZag32(value));
    }

    /** readVarint32ZigZag: `(value >>> 1) ^ -(value & 1)` of the varint read. */
    method ReadVarint32ZigZag() returns (r: Result<int32, WireError>)
      modifies this
      ensures bytes == old(bytes) && limit == old(limit)
      ensures var s := Wire.ReadVarint32(old(View()));
              (r.Err? <==> s.Err?) && (r.Ok? ==> r.value == UnZigZag32(s.value.0) && View() == s.value.1)
    {
      var v := ReadVarint32();
      if v.Err? {
        return Err(v.error);
      }
      return Ok(UnZigZag32(v.value));
    }

    /** writeVarint64ZigZag: the Long with both words shifted left and flipped by the sign. */
    method WriteVarint64ZigZag(value: Long)
      requires Writing()
      modifies this, bytes
      ensures Writing() && Written() == old(Written()) + Varint64Bytes(ZigZag64(value))
      ensures bytes == old(bytes) || fresh(bytes)
    {
      WriteVarint64(ZigZag64(value));
    }

    /** readVarint64ZigZag: the signed Long read, shifted right and flipped by its low bit. */
    method ReadVarint64ZigZag() returns (r: Result<Long, WireError>)
      modifies this
      ensures bytes == old(bytes) && limit == old(limit)
      ensures var s := Wire.ReadVarint64(old(View()), false);
              (r.Err? <==> s.Err?) && (r.Ok? ==> r.value == UnZigZag64(s.value.0) && View() == s.value.1)
    {
      var v := ReadVarint64(false);
      if v.Err? {
        return Err(v.error);
      }
      return Ok(UnZigZag64(v.value));
    }

    // ---- The generated codecs' loops ----

    /**
     * An `_encodeX` body: for each set field in order, the tag, then the value; a nested
     * message is encoded into a fresh buffer whose limit and bytes are then written.
     */
    method WriteFields(fs: seq<Field>)
      requires Writing()
      modifies this, bytes
      ensures Writing() && Written() == old(Written()) + FieldsBytes(fs)
      ensures bytes == old(bytes) || fresh(bytes)
      decreases fs, 2
    {
      ghost var total := Written() + FieldsBytes(fs);
      var i := 0;
      while i < |fs|
        invariant 0 <= i <= |fs| && Writing()
        invariant bytes == old(bytes) || fresh(bytes)
        invariant Written() + FieldsBytes(fs[i..]) == total
      {
        ghost var w, rest := Written(), FieldsBytes(fs[i..]);
        ghost var u, tail := FieldBytes(fs[i]), FieldsBytes(fs[i + 1..]);
        assert rest == u + tail by {
          assert fs[i..][1..] == fs[i + 1..];
        }
        WriteField(fs[i]);
        SeqShift(w, u, rest, tail, total);
        i := i + 1;
      }
      assert fs[i..] == [];
    }

    method WriteField(f: Field)
      requires Writing()
      modifies this, bytes
      ensures Writing() && Written() == old(Written()) + FieldBytes(f)
      ensures bytes == old(bytes) || fresh(bytes)
      decreases f, 1
    {
      ghost var start := Written();
      WriteVarint32(TagOf(f));
      ghost var tagged := Written();
      WritePayload(f);
      SeqExtend(tagged, start, Varint32Bytes(TagOf(f)), PayloadBytes(f));
    }

    /** The value after the tag; a nested message goes through a buffer of its own. */
    method WritePayload(f: Field)
      requires Writing()
      modifies this, bytes
      ensures Writing() && Written() == old(Written()) + PayloadBytes(f)
      ensures bytes == old(bytes) || fresh(bytes)
      decreases f, 0
    {
      var v := f.value;
      if v.Text? {
        WriteString(v.text);
      } else if v.Flag? {
        WriteByte(if v.flag then 1 else 0);
      } else if v.Int32? {
        WriteVarint64(IntToLong(v.int32));
      } else if v.Int64? {
        WriteVarint64(v.int64);
      } else {
        WriteNested(v.fields);
      }
    }

    /** A nested message: encoded into a fresh buffer whose length and bytes are then written. */
    method WriteNested(fs: seq<Field>)
      requires Writing()
      modifies this, bytes
      ensures Writing() && Written() == old(Written()) + Delimited(FieldsBytes(fs))
      ensures bytes == old(bytes) || fresh(bytes)
      decreases fs, 3
    {
      ghost var start := Written();
      var nested := new ByteBuffer.Fresh();
      nested.WriteFields(fs);
      ghost var inner := nested.Written();
      assert inner == FieldsBytes(fs) && nested.limit == |inner|;
      WriteVarint32(nested.limit);
      ghost var tagged := Written();
      assert nested.Written() == inner;
      WriteByteBuffer(nested);
      SeqExtend(tagged, start, Varint32Bytes(|inner|), inner);
    }

    /**
     * A `_decodeX` loop: `while (!isAtEnd(bb))` read a tag; field number 0 ends the message,
     * a known number reads its value, any other is skipped by its wire type. String and
     * skip lengths are read unsigned, as in the corrected Records.ParseFields.
     */
    method ReadFields(schema: Schema) returns (r: Result<seq<Field>, WireError>)
      modifies this
      ensures bytes == old(bytes)
      ensures var s := ParseFields(old(View()), schema);
              (r.Err? <==> s.Err?) && (r.Err? ==> r.error == s.error)
              && (r.Ok? ==> r.value == s.value.0 && View() == s.value.1)
      decreases schema, 1
    {
      var fs: seq<Field> := [];
      assert Prefixed([], ParseFields(View(), schema)) == ParseFields(View(), schema) by {
        PrefixedEmpty(ParseFields(View(), schema));
      }
      while offset < limit
        invariant bytes == old(bytes)
        invariant ParseFields(old(View()), schema) == Prefixed(fs, ParseFields(View(), schema))
        decreases limit - offset
      {
        ghost var c := View();
        var tag := ReadVarint32();
        if tag.Err? {
          return Err(tag.error);
        }
        var n := FieldNumber(tag.value);
        if n == 0 {
          return Ok(fs);
        } else if n <= |schema.kinds| {
          var v := ReadValue(schema.kinds[n - 1]);
          if v.Err? {
            return Err(v.error);
          }
          PrefixedAppend(fs, Field(n, v.value), ParseFields(View(), schema));
          fs := fs + [Field(n, v.value)];
        } else {
          var skipped := SkipUnknownField(WireType(tag.value));
          if skipped.Err? {
            return Err(skipped.error);
          }
        }
      }
      return Ok(fs);
    }

    /** A known field's value (a string with the corrected, unsigned length); a nested message between pushTemporaryLength and `bb.limit = limit`. */
    method ReadValue(kind: Kind) returns (r: Result<Value, WireError>)
      modifies this
      ensures bytes == old(bytes)
      ensures var s := Records.ReadValue(old(View()), kind);
              (r.Err? <==> s.Err?) && (r.Err? ==> r.error == s.error)
              && (r.Ok? ==> r.value == s.value.0 && View() == s.value.1)
      decreases kind, 0
    {
      if kind.KText? {
        var t := ReadStringField();
        if t.Err? { return Err(t.error); }
        return Ok(Text(t.value));
      } else if kind.KBool? {
        var b := ReadBool();
        if b.Err? { return Err(ReadPastLimit); }
        return Ok(Flag(b.value));
      } else if kind.KInt32? {
        var v := ReadVarint32();
        if v.Err? { return Err(v.error); }
        return Ok(Int32(v.value));
      } else if kind.KInt64? {
        var l := ReadVarint64(false);
        if l.Err? { return Err(l.error); }
        return Ok(Int64(l.value));
      } else {
        var saved := PushTemporaryLength();
        if saved.Err? { return Err(saved.error); }
        var fs := ReadFields(kind.schema);
        if fs.Err? { return Err(fs.error); }
        limit := saved.value;
        return Ok(Sub(fs.value));
      }
    }
  }

  /** The loop's result once `acc` has been read: the fields still to come behind `acc`. */
  function Prefixed(acc: seq<Field>, r: Result<(seq<Field>, Cursor), WireError>): Result<(seq<Field>, Cursor), WireError> {
    if r.Err? then r else Ok((acc + r.value.0, r.value.1))
  }

  /** Appending to a sequence known as a concatenation. */
  lemma {:induction false} SeqExtend<T>(cur: seq<T>, prefix: seq<T>, done: seq<T>, u: seq<T>)
    requires cur == prefix + done
    ensures cur + u == prefix + (done + u)
  {
  }

  /** Moving the head of the rest onto the part done. */
  lemma {:induction false} SeqShift<T>(done: seq<T>, u: seq<T>, rest: seq<T>, tail: seq<T>, total: seq<T>)
    requires done + rest == total && rest == u + tail
    ensures (done + u) + tail == total
  {
  }

  lemma {:induction false} PrefixedEmpty(r: Result<(seq<Field>, Cursor), WireError>)
    ensures Prefixed([], r) == r
  {
    if r.Ok? {
      assert [] + r.value.0 == r.value.0;
    }
  }

  lemma {:induction false} PrefixedAppend(acc: seq<Field>, f: Field, r: Result<(seq<Field>, Cursor), WireError>)
    ensures Prefixed(acc, Prefixed([f], r)) == Prefixed(acc + [f], r)
  {
    if r.Ok? {
      assert acc + ([f] + r.value.0) == (acc + [f]) + r.value.0;
    }
  }

}
