// What every generated message codec adds to the shared decode loop: the encoder lists
// the set fields in declaration order, and the decoder starts from the empty object
// `{}` and lets each field the loop meets update it (the body of the `switch`).
module Messages {
  import opened Wrappers
  import opened JsNumbers
  import opened Utf8
  import opened Wire
  import opened Records

  /** The decoder's `message` object after the loop has met `fs`, one `switch` body per field. */
  function Fold<M>(step: (M, Field) -> M, acc: M, fs: seq<Field>): M
    decreases |fs|
  {
    if |fs| == 0 then acc else Fold(step, step(acc, fs[0]), fs[1..])
  }

  /** `decodeX(binary)`: the loop over the whole buffer, then the fields folded into `{}`. */
  function DecodeMessage<M>(bytes: seq<byte>, schema: Schema, step: (M, Field) -> M, empty: M): (r: Result<M, WireError>)
    ensures r.Ok? <==> ParseFields(Wrap(bytes), schema).Ok?
  {
    match ParseFields(Wrap(bytes), schema)
    case Err(e) => Err(e)
    case Ok((fs, _)) => Ok(Fold(step, empty, fs))
  }

  // ---- Messages of optional fields: one slot per field number ----

  /** A message whose fields are all optional: slot i holds field i + 1, None while unset (`undefined`). */
  type Slots = seq<Option<Value>>

  /** `{}`: every field unset. */
  function Unset(n: nat): (r: Slots)
    ensures |r| == n && forall i :: 0 <= i < n ==> r[i].None?
  {
    seq(n, _ => None)
  }

  /** `message.<field> = <value>` in the decoder's `switch`: the field's slot is overwritten. */
  function SetSlot(slots: Slots, f: Field): (r: Slots)
    ensures |r| == |slots|
  {
    if 1 <= f.number <= |slots| then slots[f.number - 1 := Some(f.value)] else slots
  }

  /** The encoder's `if ($x !== undefined)` blocks from field k + 1 on: set fields only, in field order. */
  function SlotFields(slots: Slots, k: nat): (r: seq<Field>)
    ensures |r| <= |slots| - k || k > |slots|
    decreases |slots| - k
  {
    if k >= |slots| then []
    else (if slots[k].Some? then [Field(k + 1, slots[k].value)] else []) + SlotFields(slots, k + 1)
  }

  /** Every set slot holds a value of its field's kind, in a table of at most 2^28 - 1 fields. */
  predicate SlotsFit(slots: Slots, schema: Schema) {
    |slots| == |schema.kinds| && |slots| < 0x1000_0000
    && forall i :: 0 <= i < |slots| && slots[i].Some? ==> ValueFits(slots[i].value, schema.kinds[i])
  }

  /** `decodeX(binary)` for a message of optional fields. */
  function DecodeSlots(bytes: seq<byte>, schema: Schema): (r: Result<Slots, WireError>)
    ensures r.Ok? ==> |r.value| == |schema.kinds|
  {
    match ParseFields(Wrap(bytes), schema)
    case Err(e) => Err(e)
    case Ok((fs, _)) =>
      SlotsLength(Unset(|schema.kinds|), fs);
      Ok(Fold(SetSlot, Unset(|schema.kinds|), fs))
  }

  /** The last field numbered n in fs, if any. */
  function LastOf(fs: seq<Field>, n: nat): Option<Value>
    decreases |fs|
  {
    if |fs| == 0 then None
    else if fs[|fs| - 1].number == n then Some(fs[|fs| - 1].value)
    else LastOf(fs[..|fs| - 1], n)
  }

  // ---- Typed views of slots ----

  function TextSlot(o: Option<JsString>): Option<Value> {
    if o.Some? then Some(Text(o.value)) else None
  }

  function FlagSlot(o: Option<bool>): Option<Value> {
    if o.Some? then Some(Flag(o.value)) else None
  }

  function Int32Slot(o: Option<int32>): Option<Value> {
    if o.Some? then Some(Int32(o.value)) else None
  }

  function Int64Slot(o: Option<Long>): Option<Value> {
    if o.Some? then Some(Int64(o.value)) else None
  }

  function TextAt(slots: Slots, i: nat): Option<JsString> {
    if i < |slots| && slots[i].Some? && slots[i].value.Text? then Some(slots[i].value.text) else None
  }

  function FlagAt(slots: Slots, i: nat): Option<bool> {
    if i < |slots| && slots[i].Some? && slots[i].value.Flag? then Some(slots[i].value.flag) else None
  }

  function Int32At(slots: Slots, i: nat): Option<int32> {
    if i < |slots| && slots[i].Some? && slots[i].value.Int32? then Some(slots[i].value.int32) else None
  }

  function Int64At(slots: Slots, i: nat): Option<Long> {
    if i < |slots| && slots[i].Some? && slots[i].value.Int64? then Some(slots[i].value.int64) else None
  }

  /** The fields read inside a nested message held in slot i. */
  function SubAt(slots: Slots, i: nat): Option<seq<Field>> {
    if i < |slots| && slots[i].Some? && slots[i].value.Sub? then Some(slots[i].value.fields) else None
  }

  /** An optional string that can be encoded: unset, or without unpaired surrogates. */
  predicate TextFits(o: Option<JsString>) {
    o.Some? ==> WellFormed(o.value)
  }

  /** An optional int64 as the decoder yields it: unset, or a signed Long. */
  predicate LongFits(o: Option<Long>) {
    o.Some? ==> !o.value.unsigned
  }

  // ---- Folding, piece by piece ----

  /** A fold over two runs of fields is the fold of the second run from the first run's result. */
  lemma {:induction false} FoldConcat<M>(step: (M, Field) -> M, acc: M, a: seq<Field>, b: seq<Field>)
    ensures Fold(step, acc, a + b) == Fold(step, Fold(step, acc, a), b)
    decreases |a|
  {
    if |a| > 0 {
      assert (a + b)[0] == a[0];
      assert (a + b)[1..] == a[1..] + b;
      FoldConcat(step, step(acc, a[0]), a[1..], b);
    } else {
      assert a + b == b;
    }
  }

  /** A run of at most one field in front: the fold applies it, if present, and goes on. */
  lemma {:induction false} FoldFront<M>(step: (M, Field) -> M, acc: M, a: seq<Field>, b: seq<Field>)
    requires |a| <= 1
    ensures Fold(step, acc, a + b) == Fold(step, if |a| == 0 then acc else step(acc, a[0]), b)
  {
    if |a| == 1 {
      assert (a + b)[0] == a[0];
      assert (a + b)[1..] == b;
    } else {
      assert a + b == b;
    }
  }

  /** A single field is one step of the fold. */
  lemma {:induction false} FoldOne<M>(step: (M, Field) -> M, acc: M, f: Field)
    ensures Fold(step, acc, [f]) == step(acc, f)
  {
    assert [f][1..] == [];
  }

  // ---- Well-typed fields, piece by piece ----

  lemma {:induction false} FitsConcat(a: seq<Field>, b: seq<Field>, schema: Schema)
    requires FieldsFit(a, schema) && FieldsFit(b, schema)
    ensures FieldsFit(a + b, schema)
  {
    forall i | 0 <= i < |a + b| ensures FieldFits((a + b)[i], schema) {
      if i < |a| {
        assert (a + b)[i] == a[i];
      } else {
        assert (a + b)[i] == b[i - |a|];
      }
    }
  }

  lemma {:induction false} FitsOne(f: Field, schema: Schema)
    requires FieldFits(f, schema)
    ensures FieldsFit([f], schema)
  {
  }

  // ---- The round trip of a message codec ----

  /**
   * If the encoder's fields are well typed, under 2^31 bytes in all, and fold back to `m`,
   * then decoding the encoder's bytes yields `m`.
   */
  lemma {:induction false} DecodeFields<M>(fs: seq<Field>, schema: Schema, step: (M, Field) -> M, empty: M, m: M)
    requires FieldsFit(fs, schema) && |FieldsBytes(fs)| < TWO_31
    requires Fold(step, empty, fs) == m
    ensures DecodeMessage(FieldsBytes(fs), schema, step, empty) == Ok(m)
  {
    var bytes := FieldsBytes(fs);
    assert At(bytes, 0, bytes);
    FieldsRoundTrip(bytes, 0, |bytes|, fs, schema);
  }

  // ---- Messages of optional fields ----

  /** Folding the encoder's fields from field k + 1 on onto slots that agree below k and are unset above gives the slots back. */
  lemma {:induction false} SlotsFold(slots: Slots, k: nat, acc: Slots)
    requires k <= |slots| == |acc|
    requires forall i :: 0 <= i < k ==> acc[i] == slots[i]
    requires forall i :: k <= i < |slots| ==> acc[i].None?
    ensures Fold(SetSlot, acc, SlotFields(slots, k)) == slots
    decreases |slots| - k
  {
    if k == |slots| {
      assert acc == slots;
    } else {
      var a := if slots[k].Some? then [Field(k + 1, slots[k].value)] else [];
      var next := acc[k := slots[k]];
      FoldFront(SetSlot, acc, a, SlotFields(slots, k + 1));
      assert (if |a| == 0 then acc else SetSlot(acc, a[0])) == next;
      SlotsFold(slots, k + 1, next);
    }
  }

  /** The encoder's fields from field k + 1 on are well typed when the slots are. */
  lemma {:induction false} SlotFieldsFit(slots: Slots, k: nat, schema: Schema)
    requires SlotsFit(slots, schema)
    ensures FieldsFit(SlotFields(slots, k), schema)
    decreases |slots| - k
  {
    if k < |slots| {
      var a := if slots[k].Some? then [Field(k + 1, slots[k].value)] else [];
      assert FieldsFit(a, schema);
      SlotFieldsFit(slots, k + 1, schema);
      FitsConcat(a, SlotFields(slots, k + 1), schema);
    }
  }

  /**
   * decodeX(encodeX(m)) == m for a message of optional fields: unset fields write no bytes
   * and stay unset, set fields come back as themselves.
   */
  lemma {:induction false} SlotsRoundTrip(slots: Slots, schema: Schema)
    requires SlotsFit(slots, schema) && |FieldsBytes(SlotFields(slots, 0))| < TWO_31
    ensures DecodeSlots(FieldsBytes(SlotFields(slots, 0)), schema) == Ok(slots)
  {
    SlotFieldsFit(slots, 0, schema);
    SlotsFold(slots, 0, Unset(|slots|));
    DecodeFields(SlotFields(slots, 0), schema, SetSlot, Unset(|schema.kinds|), slots);
  }

  /** The fields a nested message of optional fields was encoded from decode back to its slots. */
  lemma {:induction false} NestedSlots(slots: Slots)
    ensures Fold(SetSlot, Unset(|slots|), SlotFields(slots, 0)) == slots
  {
    SlotsFold(slots, 0, Unset(|slots|));
  }

  /** A field met twice keeps the value of its last occurrence; a field never met keeps its old value. */
  lemma {:induction false} LastOccurrenceWins(acc: Slots, fs: seq<Field>, n: nat)
    requires 1 <= n <= |acc|
    ensures |Fold(SetSlot, acc, fs)| == |acc|
    ensures Fold(SetSlot, acc, fs)[n - 1] == if LastOf(fs, n).Some? then LastOf(fs, n) else acc[n - 1]
    decreases |fs|
  {
    if |fs| > 0 {
      var init, last := fs[..|fs| - 1], fs[|fs| - 1];
      assert init + [last] == fs;
      FoldConcat(SetSlot, acc, init, [last]);
      FoldOne(SetSlot, Fold(SetSlot, acc, init), last);
      LastOccurrenceWins(acc, init, n);
    }
  }

  /** Setting slots never adds or removes one. */
  lemma {:induction false} SlotsLength(acc: Slots, fs: seq<Field>)
    ensures |Fold(SetSlot, acc, fs)| == |acc|
    decreases |fs|
  {
    if |fs| > 0 {
      SlotsLength(SetSlot(acc, fs[0]), fs[1..]);
    }
  }
}
