// The message codecs of the game service: the field-less requests and responses, the
// user-key response (a nested success or error), and the promotion-reward request
// whose int32 amount is written as a 64-bit varint.
module GameMessages {
  import opened Wrappers
  import opened JsNumbers
  import opened Utf8
  import opened Varint
  import opened Wire
  import opened Records
  import opened Messages

  // ---- Field-less messages ----

  /** GetUserKeyForGameRequest, OpenGameCenterLeaderboardRequest, OpenGameCenterLeaderboardResponse. */
  datatype NoFields = NoFields

  /** No known field: the decoder's `switch` has only `case 0` and `default`. */
  const NO_FIELDS: Schema := Schema([])

  /** The empty `_encodeX` body. */
  function EncodeNoFields(m: NoFields): (r: seq<byte>)
    ensures r == []
  {
    FieldsBytes([])
  }

  function DecodeNoFields(bytes: seq<byte>): Result<NoFields, WireError> {
    match ParseFields(Wrap(bytes), NO_FIELDS)
    case Err(e) => Err(e)
    case Ok(_) => Ok(NoFields)
  }

  /** With no known field the loop stores nothing: every field it meets is skipped. */
  lemma {:induction false} NoFieldsStored(c: Cursor)
    requires ParseFields(c, NO_FIELDS).Ok?
    ensures ParseFields(c, NO_FIELDS).value.0 == []
    decreases c.limit - c.offset
  {
    if !IsAtEnd(c) {
      var step := ParseStep(c, NO_FIELDS);
      assert step.Ok? && !step.value.Stored?;
      if step.value.Skipped? {
        NoFieldsStored(step.value.after);
      }
    }
  }

  /** Zero bytes decode to `{}`, so the field-less codecs round-trip. */
  lemma {:induction false} NoFieldsRoundTrip(m: NoFields)
    ensures DecodeNoFields(EncodeNoFields(m)) == Ok(m)
  {
    assert IsAtEnd(Wrap([]));
  }

  // ---- GetUserKeyForGameResponse ----

  datatype UserKeySuccess = UserKeySuccess(keyType: Option<JsString>, hash: Option<JsString>)

  datatype UserKeyError = UserKeyError(errorType: Option<JsString>, message: Option<JsString>)

  /** Both nested messages are optional and independent. */
  datatype UserKeyResponse = UserKeyResponse(success: Option<UserKeySuccess>, error: Option<UserKeyError>)

  const TWO_STRINGS: Schema := Schema([KText, KText])
  const USER_KEY_RESPONSE: Schema := Schema([KMessage(TWO_STRINGS), KMessage(TWO_STRINGS)])

  function UserKeySuccessFields(m: UserKeySuccess): seq<Field> {
    SlotFields([TextSlot(m.keyType), TextSlot(m.hash)], 0)
  }

  function UserKeyErrorFields(m: UserKeyError): seq<Field> {
    SlotFields([TextSlot(m.errorType), TextSlot(m.message)], 0)
  }

  function UserKeySuccessFrom(fs: seq<Field>): UserKeySuccess {
    var slots := Fold(SetSlot, Unset(2), fs);
    UserKeySuccess(TextAt(slots, 0), TextAt(slots, 1))
  }

  function UserKeyErrorFrom(fs: seq<Field>): UserKeyError {
    var slots := Fold(SetSlot, Unset(2), fs);
    UserKeyError(TextAt(slots, 0), TextAt(slots, 1))
  }

  /** `success` under tag 10 and `error` under tag 18, each length-delimited. */
  function UserKeyResponseSlots(m: UserKeyResponse): Slots {
    [if m.success.Some? then Some(Sub(UserKeySuccessFields(m.success.value))) else None,
     if m.error.Some? then Some(Sub(UserKeyErrorFields(m.error.value))) else None]
  }

  function UserKeyResponseOf(slots: Slots): UserKeyResponse {
    var success := SubAt(slots, 0);
    var error := SubAt(slots, 1);
    UserKeyResponse(
      if success.Some? then Some(UserKeySuccessFrom(success.value)) else None,
      if error.Some? then Some(UserKeyErrorFrom(error.value)) else None)
  }

  function EncodeUserKeyResponse(m: UserKeyResponse): seq<byte> {
    FieldsBytes(SlotFields(UserKeyResponseSlots(m), 0))
  }

  function DecodeUserKeyResponse(bytes: seq<byte>): Result<UserKeyResponse, WireError> {
    match DecodeSlots(bytes, USER_KEY_RESPONSE)
    case Err(e) => Err(e)
    case Ok(slots) => Ok(UserKeyResponseOf(slots))
  }

  predicate UserKeyResponseFits(m: UserKeyResponse) {
    (m.success.Some? ==> TextFits(m.success.value.keyType) && TextFits(m.success.value.hash))
    && (m.error.Some? ==> TextFits(m.error.value.errorType) && TextFits(m.error.value.message))
  }

  lemma {:induction false} UserKeyResponseSlotsFit(m: UserKeyResponse)
    requires UserKeyResponseFits(m)
    ensures SlotsFit(UserKeyResponseSlots(m), USER_KEY_RESPONSE)
  {
    if m.success.Some? {
      var s := m.success.value;
      assert SlotsFit([TextSlot(s.keyType), TextSlot(s.hash)], TWO_STRINGS);
      SlotFieldsFit([TextSlot(s.keyType), TextSlot(s.hash)], 0, TWO_STRINGS);
    }
    if m.error.Some? {
      var e := m.error.value;
      assert SlotsFit([TextSlot(e.errorType), TextSlot(e.message)], TWO_STRINGS);
      SlotFieldsFit([TextSlot(e.errorType), TextSlot(e.message)], 0, TWO_STRINGS);
    }
  }

  lemma {:induction false} UserKeyResponseSlotsBack(m: UserKeyResponse)
    ensures UserKeyResponseOf(UserKeyResponseSlots(m)) == m
  {
    if m.success.Some? {
      var s := m.success.value;
      NestedSlots([TextSlot(s.keyType), TextSlot(s.hash)]);
      assert UserKeySuccessFrom(UserKeySuccessFields(s)) == s;
    }
    assert UserKeyResponseOf(UserKeyResponseSlots(m)).success == m.success;
    if m.error.Some? {
      var e := m.error.value;
      NestedSlots([TextSlot(e.errorType), TextSlot(e.message)]);
      assert UserKeyErrorFrom(UserKeyErrorFields(e)) == e;
    }
    assert UserKeyResponseOf(UserKeyResponseSlots(m)).error == m.error;
  }

  /** Decoding restores whichever of `success` and `error` were set, and leaves the other unset. */
  lemma {:induction false} UserKeyResponseRoundTrip(m: UserKeyResponse)
    requires UserKeyResponseFits(m) && |EncodeUserKeyResponse(m)| < TWO_31
    ensures DecodeUserKeyResponse(EncodeUserKeyResponse(m)) == Ok(m)
  {
    UserKeyResponseSlotsFit(m);
    SlotsRoundTrip(UserKeyResponseSlots(m), USER_KEY_RESPONSE);
    UserKeyResponseSlotsBack(m);
  }

  // ---- GrantPromotionRewardRequest ----

  datatype GrantPromotionRewardRequest = GrantPromotionRewardRequest(promotionCode: Option<JsString>, amount: Option<int32>)

  /** The int32 `amount` is read back with readVarint32. */
  const GRANT_PROMOTION_REWARD_REQUEST: Schema := Schema([KText, KInt32])

  function GrantPromotionRewardRequestSlots(m: GrantPromotionRewardRequest): Slots {
    [TextSlot(m.promotionCode), Int32Slot(m.amount)]
  }

  /** Tag 10 and the string; tag 16 and writeVarint64(intToLong(amount)). */
  function EncodeGrantPromotionRewardRequest(m: GrantPromotionRewardRequest): seq<byte> {
    FieldsBytes(SlotFields(GrantPromotionRewardRequestSlots(m), 0))
  }

  function DecodeGrantPromotionRewardRequest(bytes: seq<byte>): Result<GrantPromotionRewardRequest, WireError> {
    match DecodeSlots(bytes, GRANT_PROMOTION_REWARD_REQUEST)
    case Err(e) => Err(e)
    case Ok(slots) => Ok(GrantPromotionRewardRequest(TextAt(slots, 0), Int32At(slots, 1)))
  }

  /** Every int32 amount, negative ones included, comes back as itself. */
  lemma {:induction false} GrantPromotionRewardRequestRoundTrip(m: GrantPromotionRewardRequest)
    requires TextFits(m.promotionCode) && |EncodeGrantPromotionRewardRequest(m)| < TWO_31
    ensures DecodeGrantPromotionRewardRequest(EncodeGrantPromotionRewardRequest(m)) == Ok(m)
  {
    assert SlotsFit(GrantPromotionRewardRequestSlots(m), GRANT_PROMOTION_REWARD_REQUEST);
    SlotsRoundTrip(GrantPromotionRewardRequestSlots(m), GRANT_PROMOTION_REWARD_REQUEST);
  }

  /** A request holding only a negative amount is 11 bytes: the tag 16 and a ten-byte sign-extended varint. */
  lemma {:induction false} NegativeAmountIsElevenBytes(v: int32)
    requires v < 0
    ensures EncodeGrantPromotionRewardRequest(GrantPromotionRewardRequest(None, Some(v))) == [16] + Varint64Bytes(IntToLong(v))
    ensures |EncodeGrantPromotionRewardRequest(GrantPromotionRewardRequest(None, Some(v)))| == 11
  {
    var m := GrantPromotionRewardRequest(None, Some(v));
    var slots := GrantPromotionRewardRequestSlots(m);
    var f := Field(2, Int32(v));
    assert SlotFields(slots, 0) == [f] by {
      assert SlotFields(slots, 2) == [];
      assert SlotFields(slots, 1) == [f] + [];
    }
    assert Varint32Bytes(TagOf(f)) == [16] by {
      assert TagOf(f) == 16;
      assert ToUint32(16) == 16;
      assert VarintBytes(16) == [16];
    }
    assert PayloadBytes(f) == Varint64Bytes(IntToLong(v));
    assert FieldsBytes([f]) == FieldBytes(f) + FieldsBytes([f][1..]);
    assert [f][1..] == [];
    assert FieldsBytes([f]) == [16] + Varint64Bytes(IntToLong(v));
    NegativeIsTenBytes(v);
  }

  lemma {:induction false} NegativeIsTenBytes(v: int32)
    requires v < 0
    ensures |Varint64Bytes(IntToLong(v))| == 10
  {
    var s := Varint64Bytes(IntToLong(v));
    assert At(s, 0, s);
    Int32AsVarint64RoundTrip(s, 0, |s|, v);
  }
}
