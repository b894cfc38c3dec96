// The shape every generated `_decodeX` / `_encodeX` pair shares. A decoder is the loop
//
//   while (!isAtEnd(bb)) { tag = readVarint32(bb); switch (tag >>> 3) { case 0: stop;
//     case <known n>: read the value the field's type calls for; default: skipUnknownField } }
//
// and an encoder writes, field by field, the tag and the value. The loops of the
// generated files differ only in their table of known fields, so the decode loop is
// modelled once, parameterised by that table (a Schema), yielding the fields in the
// order they were met; the per-message code then folds those fields into the message.
module Records {
  import opened Wrappers
  import opened Arith
  import opened JsNumbers
  import opened Varint
  import opened Utf8
  import opened Wire

  /** How a decoder reads a known field: as a string, a bool, an int32, an int64 or a nested message. */
  datatype Kind = KText | KBool | KInt32 | KInt64 | KMessage(schema: Schema)

  /** A message's table of known fields: field number i + 1 is read as kinds[i]; other numbers are unknown. */
  datatype Schema = Schema(kinds: seq<Kind>)

  /** A value as the decoder stores it; a nested message is kept as the fields read inside it. */
  datatype Value =
    | Text(text: JsString)
    | Flag(flag: bool)
    | Int32(int32: int32)
    | Int64(int64: Long)
    | Sub(fields: seq<Field>)

  /** A field as met on the wire: its number and its value. */
  datatype Field = Field(number: nat, value: Value)

  /** One turn of the decode loop: a field-0 tag, a known field stored, or an unknown field skipped. */
  datatype Step = End(after: Cursor) | Stored(field: Field, after: Cursor) | Skipped(after: Cursor)

  /** `d` reads the same bytes under the same limit as `c`, strictly after `c`'s position. */
  predicate Progress(c: Cursor, d: Cursor) {
    d.bytes == c.bytes && d.limit == c.limit && c.offset < d.offset
  }

  // ---- Decoding ----

  /**
   * The decode loop from cursor `c` on: the known fields in the order they are met and
   * the cursor where the loop stops (at the limit or after a field-0 tag). String and skip
   * lengths are read unsigned, the corrected read; ParseFieldsAsWritten below is the loop
   * with the signed lengths of the generated files.
   */
  function ParseFields(c: Cursor, schema: Schema): (r: Result<(seq<Field>, Cursor), WireError>)
    ensures r.Ok? ==> Forward(c, r.value.1)
    decreases schema, c.limit - c.offset, 1
  {
    if IsAtEnd(c) then Ok(([], c))
    else
      match ParseStep(c, schema)
      case Err(e) => Err(e)
      case Ok(End(d)) => Ok(([], d))
      case Ok(Skipped(d)) => ParseFields(d, schema)
      case Ok(Stored(f, d)) =>
        match ParseFields(d, schema)
        case Err(e) => Err(e)
        case Ok((fs, last)) => Ok(([f] + fs, last))
  }

  /** The body of the loop, corrected: read a tag, then the field it announces, with unsigned lengths. */
  function ParseStep(c: Cursor, schema: Schema): (r: Result<Step, WireError>)
    ensures r.Ok? ==> Progress(c, r.value.after)
    decreases schema, c.limit - c.offset, 0
  {
    match ReadVarint32(c)
    case Err(e) => Err(e)
    case Ok((tag, next)) =>
      var n := FieldNumber(tag);
      if n == 0 then Ok(End(next))
      else if n <= |schema.kinds| then
        match ReadValue(next, schema.kinds[n - 1])
        case Err(e) => Err(e)
        case Ok((v, d)) => Ok(Stored(Field(n, v), d))
      else
        match SkipUnknownField(next, WireType(tag))
        case Err(e) => Err(e)
        case Ok(d) => Ok(Skipped(d))
  }

  /**
   * A known field's value. A nested message narrows the limit with pushTemporaryLength,
   * runs its own loop under it and restores the saved limit (`bb.limit = limit`).
   */
  function ReadValue(c: Cursor, kind: Kind): (r: Result<(Value, Cursor), WireError>)
    ensures r.Ok? ==> Progress(c, r.value.1)
    decreases kind
  {
    match kind
    case KText =>
      (match ReadStringField(c)
       case Err(e) => Err(e)
       case Ok((t, d)) => Ok((Text(t), d)))
    case KBool =>
      (match ReadBool(c)
       case Err(e) => Err(e)
       case Ok((b, d)) => Ok((Flag(b), d)))
    case KInt32 =>
      (match ReadVarint32(c)
       case Err(e) => Err(e)
       case Ok((v, d)) => Ok((Int32(v), d)))
    case KInt64 =>
      (match ReadVarint64(c, false)
       case Err(e) => Err(e)
       case Ok((l, d)) => Ok((Int64(l), d)))
    case KMessage(sub) =>
      match PushTemporaryLength(c)
      case Err(e) => Err(e)
      case Ok((saved, inner)) =>
        match ParseFields(inner, sub)
        case Err(e) => Err(e)
        case Ok((fs, after)) => Ok((Sub(fs), after.(limit := saved)))
  }

  // ---- The decode loop as the generated files write it ----
  //
  // ParseFields above reads string and skip lengths unsigned. The generated decoders read
  // them with `readVarint32`, a signed int32, and `advance` then accepts a negative count,
  // so a turn of their loop can move the offset backwards and the loop need not end. The
  // as-written loop is therefore given a bound on the number of turns it may take.

  /** What the as-written loop has done within its bound: stopped with the fields read, failed, or still running. */
  datatype Run = Stopped(fields: seq<Field>, at: Cursor) | Failed(error: WireError) | Running

  /**
   * The decode loop as written, for at most `turns` turns (a nested message's loop takes
   * its turns from the same bound): Running when the bound is spent before the loop ends.
   */
  function ParseFieldsAsWritten(c: Cursor, schema: Schema, turns: nat): (r: Run)
    ensures r.Stopped? ==> r.at.bytes == c.bytes && r.at.limit == c.limit
    ensures IsAtEnd(c) ==> r == Stopped([], c)
    ensures !IsAtEnd(c) && turns == 0 ==> r == Running
    decreases turns, 2
  {
    if IsAtEnd(c) then Stopped([], c)
    else if turns == 0 then Running
    else
      match ParseStepAsWritten(c, schema, turns)
      case Err(e) => Failed(e)
      case Ok(None) => Running
      case Ok(Some(End(d))) => Stopped([], d)
      case Ok(Some(Skipped(d))) => ParseFieldsAsWritten(d, schema, turns - 1)
      case Ok(Some(Stored(f, d))) =>
        match ParseFieldsAsWritten(d, schema, turns - 1)
        case Stopped(fs, last) => Stopped([f] + fs, last)
        case Failed(e) => Failed(e)
        case Running => Running
  }

  /**
   * One turn as written: `skip(bb, readVarint32(bb))` and `readString(bb, readVarint32(bb))`
   * take signed lengths. None when a nested message's loop is still running within the bound.
   */
  function ParseStepAsWritten(c: Cursor, schema: Schema, turns: nat): (r: Result<Option<Step>, WireError>)
    requires turns > 0
    ensures r.Ok? && r.value.Some? ==> r.value.value.after.bytes == c.bytes && r.value.value.after.limit == c.limit
    decreases turns, 1
  {
    match ReadVarint32(c)
    case Err(e) => Err(e)
    case Ok((tag, next)) =>
      var n := FieldNumber(tag);
      if n == 0 then Ok(Some(End(next)))
      else if n <= |schema.kinds| then
        match ReadValueAsWritten(next, schema.kinds[n - 1], turns)
        case Err(e) => Err(e)
        case Ok(None) => Ok(None)
        case Ok(Some((v, d))) => Ok(Some(Stored(Field(n, v), d)))
      else
        match SkipUnknownFieldAsWritten(next, WireType(tag))
        case Err(e) => Err(e)
        case Ok(d) => Ok(Some(Skipped(d)))
  }

  /** A known field's value as written: a string takes a signed length; the other kinds read as ReadValue does. */
  function ReadValueAsWritten(c: Cursor, kind: Kind, turns: nat): (r: Result<Option<(Value, Cursor)>, WireError>)
    requires turns > 0
    ensures r.Ok? && r.value.Some? ==> r.value.value.1.bytes == c.bytes && r.value.value.1.limit == c.limit
    decreases turns, 0
  {
    match kind
    case KText =>
      (match ReadStringFieldAsWritten(c)
       case Err(e) => Err(e)
       case Ok((t, d)) => Ok(Some((Text(t), d))))
    case KMessage(sub) =>
      (match PushTemporaryLength(c)
       case Err(e) => Err(e)
       case Ok((saved, inner)) =>
         match ParseFieldsAsWritten(inner, sub, turns - 1)
         case Stopped(fs, after) => Ok(Some((Sub(fs), after.(limit := saved))))
         case Failed(e) => Err(e)
         case Running => Ok(None))
    case _ =>
      match ReadValue(c, kind)
      case Err(e) => Err(e)
      case Ok(x) => Ok(Some(x))
  }

  // ---- Encoding ----

  /** The wire type an encoder puts in a tag: 2 for strings and nested messages, 0 for varints. */
  function WireTypeOf(v: Value): (t: nat)
    ensures t == 0 || t == 2
  {
    if v.Text? || v.Sub? then 2 else 0
  }

  /** The tag an encoder writes before a field: `number << 3 | wire type`. */
  function TagOf(f: Field): nat {
    f.number * 8 + WireTypeOf(f.value)
  }

  /** What an encoder appends for one field: the tag, then the value. */
  function FieldBytes(f: Field): (r: seq<byte>)
    ensures |r| > |Varint32Bytes(TagOf(f))|
    decreases f, 1
  {
    Varint32Bytes(TagOf(f)) + PayloadBytes(f)
  }

  /** The value's bytes: writeString, writeByte(b ? 1 : 0), writeVarint64 or a delimited nested buffer. */
  function PayloadBytes(f: Field): (r: seq<byte>)
    ensures |r| > 0
    decreases f, 0
  {
    match f.value
    case Text(t) => StringBytes(t)
    case Flag(b) => BoolBytes(b)
    case Int32(v) => Varint64Bytes(IntToLong(v))
    case Int64(l) => Varint64Bytes(l)
    case Sub(fs) => Delimited(FieldsBytes(fs))
  }

  /** What an encoder appends for its fields, in order. */
  function FieldsBytes(fs: seq<Field>): (r: seq<byte>)
    ensures |fs| == 0 <==> |r| == 0
    decreases fs, 2
  {
    if |fs| == 0 then [] else FieldBytes(fs[0]) + FieldsBytes(fs[1..])
  }

  // ---- Fields an encoder can produce for a table ----

  /** A known field number of the table, holding a value of the kind the table gives it. */
  predicate FieldFits(f: Field, schema: Schema)
    decreases f
  {
    1 <= f.number <= |schema.kinds| && f.number < 0x1000_0000
    && ValueFits(f.value, schema.kinds[f.number - 1])
  }

  /**
   * A value of the kind. An int64 is a signed Long (the decoder reads int64 fields with
   * `unsigned` false) and a string has no unpaired surrogate (those are not encodable).
   */
  predicate ValueFits(v: Value, kind: Kind)
    decreases v
  {
    match v
    case Text(t) => kind == KText && WellFormed(t)
    case Flag(_) => kind == KBool
    case Int32(_) => kind == KInt32
    case Int64(l) => kind == KInt64 && !l.unsigned
    case Sub(fs) => kind.KMessage? && FieldsFit(fs, kind.schema)
  }

  predicate FieldsFit(fs: seq<Field>, schema: Schema)
    decreases fs
  {
    forall i :: 0 <= i < |fs| ==> FieldFits(fs[i], schema)
  }

  // ---- The round trip ----

  /**
   * Encoded fields decode to themselves: the loop run over exactly the bytes the encoder
   * wrote (the whole message under 2^31 bytes, so that every length reads back as itself)
   * yields the same fields in the same order and stops at the limit.
   */
  lemma {:induction false} FieldsRoundTrip(s: seq<byte>, p: int, limit: int, fs: seq<Field>, schema: Schema)
    requires FieldsFit(fs, schema) && |FieldsBytes(fs)| < TWO_31
    requires At(s, p, FieldsBytes(fs)) && limit == p + |FieldsBytes(fs)|
    ensures ParseFields(Cursor(s, p, limit), schema) == Ok((fs, Cursor(s, limit, limit)))
    decreases fs, 2
  {
    if |fs| > 0 {
      var e := FieldBytes(fs[0]);
      var q := Split(s, p, e, FieldsBytes(fs[1..]));
      assert FieldFits(fs[0], schema);
      StepRoundTrip(s, p, q, limit, fs[0], schema);
      FieldsFitTail(fs, schema);
      FieldsRoundTrip(s, q, limit, fs[1..], schema);
      StoredThenRest(Cursor(s, p, limit), schema, fs[0], Cursor(s, q, limit), fs[1..], Cursor(s, limit, limit));
      assert [fs[0]] + fs[1..] == fs;
    }
  }

  /** A stored field followed by the rest of the loop's fields is the loop's result. */
  lemma {:induction false} StoredThenRest(c: Cursor, schema: Schema, f: Field, d: Cursor, rest: seq<Field>, last: Cursor)
    requires !IsAtEnd(c) && ParseStep(c, schema) == Ok(Stored(f, d))
    requires ParseFields(d, schema) == Ok((rest, last))
    ensures ParseFields(c, schema) == Ok(([f] + rest, last))
  {
  }

  lemma {:induction false} FieldsFitTail(fs: seq<Field>, schema: Schema)
    requires |fs| > 0 && FieldsFit(fs, schema)
    ensures FieldsFit(fs[1..], schema)
  {
    forall i | 0 <= i < |fs[1..]| ensures FieldFits(fs[1..][i], schema) {
      assert fs[1..][i] == fs[i + 1];
    }
  }

  /** One encoded field is one turn of the loop that stores it. */
  lemma {:induction false} StepRoundTrip(s: seq<byte>, p: int, q: int, limit: int, f: Field, schema: Schema)
    requires FieldFits(f, schema) && |FieldBytes(f)| < TWO_31
    requires At(s, p, FieldBytes(f)) && q == p + |FieldBytes(f)| && q <= limit
    ensures ParseStep(Cursor(s, p, limit), schema) == Ok(Stored(f, Cursor(s, q, limit)))
    decreases f, 1
  {
    var tag := TagOf(f);
    var q1 := Split(s, p, Varint32Bytes(tag), PayloadBytes(f));
    var n := TagRoundTrip(s, p, q1, limit, f);
    ValueRoundTrip(s, q1, q, limit, f, schema.kinds[n - 1]);
    var r := ParseStep(Cursor(s, p, limit), schema);
    assert r.Ok? && r.value.Stored? && r.value.field == f;
    assert r.value.after == Cursor(s, q, limit);
  }

  /** The tag reads back and announces the field's number. */
  lemma {:induction false} TagRoundTrip(s: seq<byte>, p: int, q1: int, limit: int, f: Field) returns (n: nat)
    requires 1 <= f.number < 0x1000_0000
    requires At(s, p, Varint32Bytes(TagOf(f))) && q1 == p + |Varint32Bytes(TagOf(f))| && q1 < limit
    ensures n == f.number
    ensures ReadVarint32(Cursor(s, p, limit)).Ok?
    ensures ReadVarint32(Cursor(s, p, limit)).value.1 == Cursor(s, q1, limit)
    ensures FieldNumber(ReadVarint32(Cursor(s, p, limit)).value.0) == n
  {
    var tag := TagOf(f);
    Varint32RoundTrip(s, p, limit, tag);
    Uint32Fixed(tag);
    DivUnique(tag, 8, f.number, WireTypeOf(f.value));
    n := f.number;
  }

  /** The value reads back as itself and the loop resumes right after it, under the same limit. */
  lemma {:induction false} ValueRoundTrip(s: seq<byte>, q1: int, q: int, limit: int, f: Field, kind: Kind)
    requires ValueFits(f.value, kind) && |PayloadBytes(f)| < TWO_31
    requires At(s, q1, PayloadBytes(f)) && q == q1 + |PayloadBytes(f)| && q <= limit
    ensures ReadValue(Cursor(s, q1, limit), kind) == Ok((f.value, Cursor(s, q, limit)))
    decreases f, 0
  {
    match f.value
    case Text(t) => TextRoundTrip(s, q1, q, limit, t);
    case Flag(b) => FlagRoundTrip(s, q1, q, limit, b);
    case Int32(v) => Int32RoundTrip(s, q1, q, limit, v);
    case Int64(l) => Int64RoundTrip(s, q1, q, limit, l);
    case Sub(fs) => SubRoundTrip(s, q1, q, limit, fs, kind.schema);
  }

  lemma {:induction false} TextRoundTrip(s: seq<byte>, q1: int, q: int, limit: int, t: JsString)
    requires WellFormed(t) && |StringBytes(t)| < TWO_31
    requires At(s, q1, StringBytes(t)) && q == q1 + |StringBytes(t)| && q <= limit
    ensures ReadValue(Cursor(s, q1, limit), KText) == Ok((Text(t), Cursor(s, q, limit)))
  {
    assert ByteCount(t) < TWO_32;
    StringRoundTrip(s, q1, limit, t);
    var r := ReadValue(Cursor(s, q1, limit), KText);
    assert r.Ok? && r.value.0 == Text(t);
    assert r.value.1 == Cursor(s, q, limit);
  }

  lemma {:induction false} FlagRoundTrip(s: seq<byte>, q1: int, q: int, limit: int, b: bool)
    requires At(s, q1, BoolBytes(b)) && q == q1 + 1 && q <= limit
    ensures ReadValue(Cursor(s, q1, limit), KBool) == Ok((Flag(b), Cursor(s, q, limit)))
  {
    AtHead(s, q1, BoolBytes(b));
  }

  lemma {:induction false} Int32RoundTrip(s: seq<byte>, q1: int, q: int, limit: int, v: int32)
    requires At(s, q1, Varint64Bytes(IntToLong(v))) && q == q1 + |Varint64Bytes(IntToLong(v))| && q <= limit
    ensures ReadValue(Cursor(s, q1, limit), KInt32) == Ok((Int32(v), Cursor(s, q, limit)))
  {
    Int32AsVarint64RoundTrip(s, q1, limit, v);
  }

  lemma {:induction false} Int64RoundTrip(s: seq<byte>, q1: int, q: int, limit: int, l: Long)
    requires !l.unsigned
    requires At(s, q1, Varint64Bytes(l)) && q == q1 + |Varint64Bytes(l)| && q <= limit
    ensures ReadValue(Cursor(s, q1, limit), KInt64) == Ok((Int64(l), Cursor(s, q, limit)))
  {
    Varint64RoundTrip(s, q1, limit, l, false);
  }

  lemma {:induction false} SubRoundTrip(s: seq<byte>, q1: int, q: int, limit: int, fs: seq<Field>, sub: Schema)
    requires FieldsFit(fs, sub) && |Delimited(FieldsBytes(fs))| < TWO_31
    requires At(s, q1, Delimited(FieldsBytes(fs))) && q == q1 + |Delimited(FieldsBytes(fs))| && q <= limit
    ensures ReadValue(Cursor(s, q1, limit), KMessage(sub)) == Ok((Sub(fs), Cursor(s, q, limit)))
    decreases fs, 3
  {
    var inner := FieldsBytes(fs);
    var q2 := Split(s, q1, Varint32Bytes(|inner|), inner);
    var pushed := PushedLength(s, q1, q2, limit, |inner|);
    assert q == q2 + |inner|;
    assert pushed == Cursor(s, q2, q);
    FieldsRoundTrip(s, q2, q, fs, sub);
    MessageValue(Cursor(s, q1, limit), sub, limit, pushed, fs, Cursor(s, q, q));
  }

  /** A nested message's value is its inner loop's fields, with the outer limit restored. */
  lemma {:induction false} MessageValue(c: Cursor, sub: Schema, saved: int, inner: Cursor, fs: seq<Field>, after: Cursor)
    requires PushTemporaryLength(c) == Ok((saved, inner))
    requires ParseFields(inner, sub) == Ok((fs, after))
    ensures ReadValue(c, KMessage(sub)) == Ok((Sub(fs), after.(limit := saved)))
  {
  }

  /** pushTemporaryLength over a length prefix written by writeVarint32. */
  lemma {:induction false} PushedLength(s: seq<byte>, q1: int, q2: int, limit: int, n: nat) returns (inner: Cursor)
    requires n < TWO_31
    requires At(s, q1, Varint32Bytes(n)) && q2 == q1 + |Varint32Bytes(n)| && q2 <= limit
    ensures inner == Cursor(s, q2, q2 + n)
    ensures PushTemporaryLength(Cursor(s, q1, limit)) == Ok((limit, inner))
  {
    Varint32RoundTrip(s, q1, limit, n);
    inner := Cursor(s, q2, q2 + n);
  }

  /** Bytes stored at `p` that are a concatenation: each part is stored in turn. */
  lemma {:induction false} Split(s: seq<byte>, p: int, e: seq<byte>, f: seq<byte>) returns (q: int)
    requires At(s, p, e + f)
    ensures At(s, p, e) && q == p + |e| && At(s, q, f)
  {
    AtConcat(s, p, e, f);
    q := p + |e|;
  }

  // ---- The round trip through the loop as written ----

  /**
   * On the bytes an encoder wrote, the loop as written yields the same fields as the
   * corrected one: every length there is below 2^31 and reads as itself, signed or not.
   * A bound of one turn per byte is enough for the loop and its nested loops.
   */
  lemma {:induction false} FieldsRoundTripAsWritten(s: seq<byte>, p: int, limit: int, fs: seq<Field>, schema: Schema,
                                                    turns: nat)
    requires FieldsFit(fs, schema) && |FieldsBytes(fs)| < TWO_31
    requires At(s, p, FieldsBytes(fs)) && limit == p + |FieldsBytes(fs)|
    requires turns >= |FieldsBytes(fs)|
    ensures ParseFieldsAsWritten(Cursor(s, p, limit), schema, turns) == Stopped(fs, Cursor(s, limit, limit))
    decreases fs, 2
  {
    if |fs| > 0 {
      var q := FirstFieldAt(s, p, limit, fs, schema);
      FieldsRoundTripAsWritten(s, q, limit, fs[1..], schema, turns - 1);
      HeadThenTailAsWritten(s, p, q, limit, fs, schema, turns);
    }
  }

  /** Encoded fields are the first field's bytes, ending at `q`, then the encoded rest up to the limit. */
  lemma {:induction false} FirstFieldAt(s: seq<byte>, p: int, limit: int, fs: seq<Field>, schema: Schema)
    returns (q: int)
    requires FieldsFit(fs, schema) && |FieldsBytes(fs)| < TWO_31
    requires At(s, p, FieldsBytes(fs)) && limit == p + |FieldsBytes(fs)| && |fs| > 0
    ensures FieldFits(fs[0], schema) && |FieldBytes(fs[0])| < TWO_31
    ensures At(s, p, FieldBytes(fs[0])) && q == p + |FieldBytes(fs[0])| && q <= limit
    ensures FieldsFit(fs[1..], schema) && |FieldsBytes(fs[1..])| < TWO_31
    ensures At(s, q, FieldsBytes(fs[1..])) && limit == q + |FieldsBytes(fs[1..])|
    ensures |FieldBytes(fs[0])| + |FieldsBytes(fs[1..])| == |FieldsBytes(fs)|
  {
    q := Split(s, p, FieldBytes(fs[0]), FieldsBytes(fs[1..]));
    assert FieldFits(fs[0], schema);
    FieldsFitTail(fs, schema);
  }

  /** The first encoded field, followed by bytes the loop reads as the other fields, reads as all the fields. */
  lemma {:induction false} HeadThenTailAsWritten(s: seq<byte>, p: int, q: int, limit: int, fs: seq<Field>,
                                                 schema: Schema, turns: nat)
    requires |fs| > 0 && FieldFits(fs[0], schema) && |FieldBytes(fs[0])| < TWO_31
    requires At(s, p, FieldBytes(fs[0])) && q == p + |FieldBytes(fs[0])| && q <= limit
    requires turns > 0 && turns >= |FieldBytes(fs[0])|
    requires ParseFieldsAsWritten(Cursor(s, q, limit), schema, turns - 1) == Stopped(fs[1..], Cursor(s, limit, limit))
    ensures ParseFieldsAsWritten(Cursor(s, p, limit), schema, turns) == Stopped(fs, Cursor(s, limit, limit))
    decreases fs, 1
  {
    StepRoundTripAsWritten(s, p, q, limit, fs[0], schema, turns);
    StoredThenRestAsWritten(Cursor(s, p, limit), schema, turns, fs[0], Cursor(s, q, limit), fs[1..],
                            Cursor(s, limit, limit));
    assert [fs[0]] + fs[1..] == fs;
  }

  /** An as-written turn that stores a field, followed by the rest of the loop's fields, is the loop's result. */
  lemma {:induction false} StoredThenRestAsWritten(c: Cursor, schema: Schema, turns: nat, f: Field, d: Cursor,
                                                   rest: seq<Field>, last: Cursor)
    requires !IsAtEnd(c) && turns > 0 && ParseStepAsWritten(c, schema, turns) == Ok(Some(Stored(f, d)))
    requires ParseFieldsAsWritten(d, schema, turns - 1) == Stopped(rest, last)
    ensures ParseFieldsAsWritten(c, schema, turns) == Stopped([f] + rest, last)
  {
  }

  lemma {:induction false} StepRoundTripAsWritten(s: seq<byte>, p: int, q: int, limit: int, f: Field, schema: Schema,
                                                  turns: nat)
    requires FieldFits(f, schema) && |FieldBytes(f)| < TWO_31
    requires At(s, p, FieldBytes(f)) && q == p + |FieldBytes(f)| && q <= limit
    requires turns >= |FieldBytes(f)|
    ensures turns > 0
    ensures ParseStepAsWritten(Cursor(s, p, limit), schema, turns) == Ok(Some(Stored(f, Cursor(s, q, limit))))
    decreases f, 1
  {
    var tag := TagOf(f);
    var q1 := Split(s, p, Varint32Bytes(tag), PayloadBytes(f));
    var n := TagRoundTrip(s, p, q1, limit, f);
    ValueRoundTripAsWritten(s, q1, q, limit, f, schema.kinds[n - 1], turns);
    var r := ParseStepAsWritten(Cursor(s, p, limit), schema, turns);
    assert r.Ok? && r.value.Some? && r.value.value.Stored? && r.value.value.field == f;
    assert r.value.value.after == Cursor(s, q, limit);
  }

  lemma {:induction false} ValueRoundTripAsWritten(s: seq<byte>, q1: int, q: int, limit: int, f: Field, kind: Kind,
                                                   turns: nat)
    requires ValueFits(f.value, kind) && |PayloadBytes(f)| < TWO_31
    requires At(s, q1, PayloadBytes(f)) && q == q1 + |PayloadBytes(f)| && q <= limit
    requires turns > |PayloadBytes(f)|
    ensures ReadValueAsWritten(Cursor(s, q1, limit), kind, turns) == Ok(Some((f.value, Cursor(s, q, limit))))
    decreases f, 0
  {
    if f.value.Text? {
      assert kind == KText;
      TextRoundTripAsWritten(s, q1, q, limit, f.value.text, turns);
    } else if f.value.Sub? {
      SubRoundTripAsWritten(s, q1, q, limit, f.value.fields, kind.schema, turns);
    } else {
      ScalarRoundTripAsWritten(s, q1, q, limit, f, kind, turns);
    }
  }

  lemma {:induction false} TextRoundTripAsWritten(s: seq<byte>, q1: int, q: int, limit: int, t: JsString, turns: nat)
    requires WellFormed(t) && |StringBytes(t)| < TWO_31
    requires At(s, q1, StringBytes(t)) && q == q1 + |StringBytes(t)| && q <= limit
    requires turns > 0
    ensures ReadValueAsWritten(Cursor(s, q1, limit), KText, turns) == Ok(Some((Text(t), Cursor(s, q, limit))))
  {
    var d := Cursor(s, q1 + |StringBytes(t)|, limit);
    assert d == Cursor(s, q, limit);
    assert ByteCount(t) < TWO_31;
    StringRoundTripAsWritten(s, q1, limit, t);
    TextAsWritten(Cursor(s, q1, limit), turns, t, d);
  }

  lemma {:induction false} ScalarRoundTripAsWritten(s: seq<byte>, q1: int, q: int, limit: int, f: Field, kind: Kind,
                                                    turns: nat)
    requires !f.value.Text? && !f.value.Sub? && ValueFits(f.value, kind) && |PayloadBytes(f)| < TWO_31
    requires At(s, q1, PayloadBytes(f)) && q == q1 + |PayloadBytes(f)| && q <= limit
    requires turns > |PayloadBytes(f)|
    ensures ReadValueAsWritten(Cursor(s, q1, limit), kind, turns) == Ok(Some((f.value, Cursor(s, q, limit))))
  {
    ValueRoundTrip(s, q1, q, limit, f, kind);
    ScalarAsWritten(Cursor(s, q1, limit), kind, turns, f.value, Cursor(s, q, limit));
  }

  lemma {:induction false} TextAsWritten(c: Cursor, turns: nat, t: JsString, d: Cursor)
    requires turns > 0 && ReadStringFieldAsWritten(c) == Ok((t, d))
    ensures ReadValueAsWritten(c, KText, turns) == Ok(Some((Text(t), d)))
  {
  }

  /** A bool, int32 or int64 value reads the same in both loops. */
  lemma {:induction false} ScalarAsWritten(c: Cursor, kind: Kind, turns: nat, v: Value, d: Cursor)
    requires turns > 0 && !kind.KText? && !kind.KMessage? && ReadValue(c, kind) == Ok((v, d))
    ensures ReadValueAsWritten(c, kind, turns) == Ok(Some((v, d)))
  {
  }

  lemma {:induction false} SubRoundTripAsWritten(s: seq<byte>, q1: int, q: int, limit: int, fs: seq<Field>, sub: Schema,
                                                 turns: nat)
    requires FieldsFit(fs, sub) && |Delimited(FieldsBytes(fs))| < TWO_31
    requires At(s, q1, Delimited(FieldsBytes(fs))) && q == q1 + |Delimited(FieldsBytes(fs))| && q <= limit
    requires turns > |Delimited(FieldsBytes(fs))|
    ensures ReadValueAsWritten(Cursor(s, q1, limit), KMessage(sub), turns) == Ok(Some((Sub(fs), Cursor(s, q, limit))))
    decreases fs, 3
  {
    var inner := FieldsBytes(fs);
    var q2 := Split(s, q1, Varint32Bytes(|inner|), inner);
    var pushed := PushedLength(s, q1, q2, limit, |inner|);
    assert q == q2 + |inner|;
    assert pushed == Cursor(s, q2, q);
    FieldsRoundTripAsWritten(s, q2, q, fs, sub, turns - 1);
    MessageValueAsWritten(Cursor(s, q1, limit), sub, turns, limit, pushed, fs, Cursor(s, q, q));
  }

  lemma {:induction false} MessageValueAsWritten(c: Cursor, sub: Schema, turns: nat, saved: int, inner: Cursor,
                                                 fs: seq<Field>, after: Cursor)
    requires turns > 0 && PushTemporaryLength(c) == Ok((saved, inner))
    requires ParseFieldsAsWritten(inner, sub, turns - 1) == Stopped(fs, after)
    ensures ReadValueAsWritten(c, KMessage(sub), turns) == Ok(Some((Sub(fs), after.(limit := saved))))
  {
  }

  // ---- The decode loop's exits ----

  /** A tag whose field number is 0 ends the loop; the fields read so far are the message. */
  lemma {:induction false} FieldZeroEnds(c: Cursor, schema: Schema)
    requires !IsAtEnd(c) && ReadVarint32(c).Ok? && FieldNumber(ReadVarint32(c).value.0) == 0
    ensures ParseFields(c, schema) == Ok(([], ReadVarint32(c).value.1))
  {
  }

  /** An unknown field number is skipped by its wire type and the loop goes on. */
  lemma {:induction false} UnknownFieldSkipped(c: Cursor, schema: Schema)
    requires !IsAtEnd(c) && ReadVarint32(c).Ok?
    requires FieldNumber(ReadVarint32(c).value.0) > |schema.kinds|
    ensures var (tag, next) := ReadVarint32(c).value;
            var skipped := SkipUnknownField(next, WireType(tag));
            ParseFields(c, schema) == if skipped.Err? then Err(skipped.error) else ParseFields(skipped.value, schema)
  {
  }

  // ---- Reads stay below the limit ----

  /** A table without nested messages. */
  predicate Flat(schema: Schema) {
    forall i :: 0 <= i < |schema.kinds| ==> !schema.kinds[i].KMessage?
  }

  /** One pass of the loop over a flat table reads nothing past the limit. */
  lemma {:induction false} FlatStepWithin(c: Cursor, schema: Schema)
    requires Flat(schema) && ParseStep(c, schema).Ok?
    ensures ParseStep(c, schema).value.after.offset <= c.limit
  {
    var (tag, next) := ReadVarint32(c).value;
    var n := FieldNumber(tag);
    if 1 <= n <= |schema.kinds| {
      assert !schema.kinds[n - 1].KMessage?;
    }
  }

  /**
   * The loop over a flat table never reads past its limit: every advance and skip is checked
   * against `bb.limit`. Applied to the cursor pushTemporaryLength narrowed, a nested message
   * of a flat table reads nothing beyond its declared length. (A message nested one level
   * deeper is checked against its own declared length only, which pushTemporaryLength does
   * not compare with the enclosing limit.)
   */
  lemma {:induction false} FlatReadsWithin(c: Cursor, schema: Schema)
    requires Flat(schema) && ParseFields(c, schema).Ok?
    ensures var after := ParseFields(c, schema).value.1;
            after.offset <= c.limit || after == c
    decreases c.limit - c.offset
  {
    if !IsAtEnd(c) {
      FlatStepWithin(c, schema);
      var step := ParseStep(c, schema).value;
      if !step.End? {
        FlatReadsWithin(step.after, schema);
      }
    }
  }
}
