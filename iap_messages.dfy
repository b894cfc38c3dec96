// The message codecs of the in-app purchase service: a catalog item, the purchase
// events and the poll response that carries them. Each message is a record of optional
// fields (`undefined` is None); a repeated field is a sequence, empty when absent.
module IapMessages {
  import opened Wrappers
  import opened JsNumbers
  import opened Utf8
  import opened Wire
  import opened Records
  import opened Messages

  // ---- IapProductListItem ----

  datatype ProductListItem = ProductListItem(
    sku: Option<JsString>,
    displayName: Option<JsString>,
    displayAmount: Option<JsString>,
    iconUrl: Option<JsString>,
    description: Option<JsString>)

  /** Fields 1..5 are strings. */
  const PRODUCT_LIST_ITEM: Schema := Schema([KText, KText, KText, KText, KText])

  function ProductListItemSlots(m: ProductListItem): Slots {
    [TextSlot(m.sku), TextSlot(m.displayName), TextSlot(m.displayAmount), TextSlot(m.iconUrl), TextSlot(m.description)]
  }

  function ProductListItemOf(slots: Slots): ProductListItem {
    ProductListItem(TextAt(slots, 0), TextAt(slots, 1), TextAt(slots, 2), TextAt(slots, 3), TextAt(slots, 4))
  }

  /** encodeIapProductListItem: tags 10, 18, 26, 34, 42, each string only when set. */
  function EncodeProductListItem(m: ProductListItem): seq<byte> {
    FieldsBytes(SlotFields(ProductListItemSlots(m), 0))
  }

  function DecodeProductListItem(bytes: seq<byte>): Result<ProductListItem, WireError> {
    match DecodeSlots(bytes, PRODUCT_LIST_ITEM)
    case Err(e) => Err(e)
    case Ok(slots) => Ok(ProductListItemOf(slots))
  }

  predicate ProductListItemFits(m: ProductListItem) {
    TextFits(m.sku) && TextFits(m.displayName) && TextFits(m.displayAmount)
    && TextFits(m.iconUrl) && TextFits(m.description)
  }

  /** decodeIapProductListItem(encodeIapProductListItem(m)) == m: unset fields write nothing and stay unset. */
  lemma {:induction false} ProductListItemRoundTrip(m: ProductListItem)
    requires ProductListItemFits(m) && |EncodeProductListItem(m)| < TWO_31
    ensures DecodeProductListItem(EncodeProductListItem(m)) == Ok(m)
  {
    ProductListItemSlotsFit(m);
    ProductListItemSlotsBack(m);
    SlotsRoundTrip(ProductListItemSlots(m), PRODUCT_LIST_ITEM);
  }

  lemma {:induction false} ProductListItemSlotsFit(m: ProductListItem)
    requires ProductListItemFits(m)
    ensures SlotsFit(ProductListItemSlots(m), PRODUCT_LIST_ITEM)
  {
  }

  lemma {:induction false} ProductListItemSlotsBack(m: ProductListItem)
    ensures ProductListItemOf(ProductListItemSlots(m)) == m
  {
  }

  /**
   * decodeIapProductListItem as written never returns on NEGATIVE_SKU: each turn reads the
   * sku with length -6 and lands back at offset 0, so no bound on the turns is enough.
   */
  lemma {:induction false} NegativeSkuLoopsForever(turns: nat)
    ensures ParseFieldsAsWritten(Wrap(NEGATIVE_SKU), PRODUCT_LIST_ITEM, turns) == Running
    decreases turns
  {
    if turns > 0 {
      NegativeSkuFirstTurn(turns);
      NegativeSkuLoopsForever(turns - 1);
    }
  }

  lemma {:induction false} NegativeSkuFirstTurn(turns: nat)
    requires turns > 0
    ensures ParseStepAsWritten(Wrap(NEGATIVE_SKU), PRODUCT_LIST_ITEM, turns)
            == Ok(Some(Stored(Field(1, Text([])), Wrap(NEGATIVE_SKU))))
  {
    var c, c1 := Wrap(NEGATIVE_SKU), Cursor(NEGATIVE_SKU, 1, 6);
    NegativeLengthRewinds();
    TenIsFieldOne();
    assert PRODUCT_LIST_ITEM.kinds[0] == KText;
    assert ReadValueAsWritten(c1, KText, turns) == Ok(Some((Text([]), c)));
  }

  /** The tag 10 announces field 1 with wire type 2. */
  lemma {:induction false} TenIsFieldOne()
    ensures FieldNumber(10) == 1 && WireType(10) == 2
  {
    Uint32Fixed(10);
  }

  /** With the length read unsigned, the same bytes end the decode with "Read past limit". */
  lemma {:induction false} NegativeSkuRejected()
    ensures ParseFields(Wrap(NEGATIVE_SKU), PRODUCT_LIST_ITEM) == Err(ReadPastLimit)
    ensures DecodeProductListItem(NEGATIVE_SKU) == Err(ReadPastLimit)
  {
    var c, c1 := Wrap(NEGATIVE_SKU), Cursor(NEGATIVE_SKU, 1, 6);
    NegativeSkuBytes();
    UnsignedLengthRejected();
    TenIsFieldOne();
    assert PRODUCT_LIST_ITEM.kinds[0] == KText;
    assert ReadValue(c1, KText) == Err(ReadPastLimit);
    assert ParseStep(c, PRODUCT_LIST_ITEM) == Err(ReadPastLimit);
    assert !IsAtEnd(c);
  }

  // ---- PurchaseSuccessEvent ----

  datatype PurchaseSuccess = PurchaseSuccess(
    orderId: Option<JsString>,
    displayName: Option<JsString>,
    displayAmount: Option<JsString>,
    amount: Option<Long>,
    currency: Option<JsString>,
    fraction: Option<int32>,
    miniAppIconUrl: Option<JsString>)

  /** `amount` is an int64 read with readVarint64(bb, false); `fraction` an int32 read with readVarint32. */
  const PURCHASE_SUCCESS: Schema := Schema([KText, KText, KText, KInt64, KText, KInt32, KText])

  function PurchaseSuccessSlots(m: PurchaseSuccess): Slots {
    [TextSlot(m.orderId), TextSlot(m.displayName), TextSlot(m.displayAmount), Int64Slot(m.amount),
     TextSlot(m.currency), Int32Slot(m.fraction), TextSlot(m.miniAppIconUrl)]
  }

  function PurchaseSuccessOf(slots: Slots): PurchaseSuccess {
    PurchaseSuccess(TextAt(slots, 0), TextAt(slots, 1), TextAt(slots, 2), Int64At(slots, 3),
      TextAt(slots, 4), Int32At(slots, 5), TextAt(slots, 6))
  }

  /** The fields _encodePurchaseSuccessEvent writes: the int32 fraction as writeVarint64(intToLong(fraction)). */
  function PurchaseSuccessFields(m: PurchaseSuccess): seq<Field> {
    SlotFields(PurchaseSuccessSlots(m), 0)
  }

  /** _decodePurchaseSuccessEvent over the fields of its loop. */
  function PurchaseSuccessFrom(fs: seq<Field>): PurchaseSuccess {
    PurchaseSuccessOf(Fold(SetSlot, Unset(7), fs))
  }

  function EncodePurchaseSuccess(m: PurchaseSuccess): seq<byte> {
    FieldsBytes(PurchaseSuccessFields(m))
  }

  function DecodePurchaseSuccess(bytes: seq<byte>): Result<PurchaseSuccess, WireError> {
    match DecodeSlots(bytes, PURCHASE_SUCCESS)
    case Err(e) => Err(e)
    case Ok(slots) => Ok(PurchaseSuccessOf(slots))
  }

  predicate PurchaseSuccessFits(m: PurchaseSuccess) {
    TextFits(m.orderId) && TextFits(m.displayName) && TextFits(m.displayAmount) && LongFits(m.amount)
    && TextFits(m.currency) && TextFits(m.miniAppIconUrl)
  }

  /**
   * The success event round-trips, the int64 amount through writeVarint64/readVarint64 and the
   * int32 fraction through writeVarint64(intToLong(fraction))/readVarint32, negative values included.
   */
  lemma {:induction false} PurchaseSuccessRoundTrip(m: PurchaseSuccess)
    requires PurchaseSuccessFits(m) && |EncodePurchaseSuccess(m)| < TWO_31
    ensures DecodePurchaseSuccess(EncodePurchaseSuccess(m)) == Ok(m)
  {
    PurchaseSuccessSlotsFit(m);
    PurchaseSuccessSlotsBack(m);
    SlotsRoundTrip(PurchaseSuccessSlots(m), PURCHASE_SUCCESS);
  }

  lemma {:induction false} PurchaseSuccessSlotsFit(m: PurchaseSuccess)
    requires PurchaseSuccessFits(m)
    ensures SlotsFit(PurchaseSuccessSlots(m), PURCHASE_SUCCESS)
  {
  }

  lemma {:induction false} PurchaseSuccessSlotsBack(m: PurchaseSuccess)
    ensures PurchaseSuccessOf(PurchaseSuccessSlots(m)) == m
  {
  }

  /** The fields a success event is encoded as decode back to it. */
  lemma {:induction false} PurchaseSuccessFromFields(m: PurchaseSuccess)
    ensures PurchaseSuccessFrom(PurchaseSuccessFields(m)) == m
  {
    NestedSlots(PurchaseSuccessSlots(m));
    PurchaseSuccessSlotsBack(m);
  }

  // ---- PurchaseErrorEvent ----

  datatype PurchaseError = PurchaseError(errorCode: Option<JsString>, errorMessage: Option<JsString>)

  const PURCHASE_ERROR: Schema := Schema([KText, KText])

  function PurchaseErrorSlots(m: PurchaseError): Slots {
    [TextSlot(m.errorCode), TextSlot(m.errorMessage)]
  }

  function PurchaseErrorOf(slots: Slots): PurchaseError {
    PurchaseError(TextAt(slots, 0), TextAt(slots, 1))
  }

  function PurchaseErrorFields(m: PurchaseError): seq<Field> {
    SlotFields(PurchaseErrorSlots(m), 0)
  }

  function PurchaseErrorFrom(fs: seq<Field>): PurchaseError {
    PurchaseErrorOf(Fold(SetSlot, Unset(2), fs))
  }

  predicate PurchaseErrorFits(m: PurchaseError) {
    TextFits(m.errorCode) && TextFits(m.errorMessage)
  }

  lemma {:induction false} PurchaseErrorSlotsFit(m: PurchaseError)
    requires PurchaseErrorFits(m)
    ensures SlotsFit(PurchaseErrorSlots(m), PURCHASE_ERROR)
  {
  }

  /** The fields an error event is encoded as decode back to it. */
  lemma {:induction false} PurchaseErrorFromFields(m: PurchaseError)
    ensures PurchaseErrorFrom(PurchaseErrorFields(m)) == m
  {
    NestedSlots(PurchaseErrorSlots(m));
    assert PurchaseErrorOf(PurchaseErrorSlots(m)) == m;
  }

  // ---- PurchaseEvent ----

  /** Success and error are independent optional nested messages (not a oneof). */
  datatype PurchaseEvent = PurchaseEvent(success: Option<PurchaseSuccess>, error: Option<PurchaseError>)

  const PURCHASE_EVENT: Schema := Schema([KMessage(PURCHASE_SUCCESS), KMessage(PURCHASE_ERROR)])

  /** Each set nested message is written as a length-delimited field holding its own fields. */
  function PurchaseEventSlots(m: PurchaseEvent): Slots {
    [if m.success.Some? then Some(Sub(PurchaseSuccessFields(m.success.value))) else None,
     if m.error.Some? then Some(Sub(PurchaseErrorFields(m.error.value))) else None]
  }

  /** `message.success = _decodePurchaseSuccessEvent(bb)`: the last nested message read replaces any earlier one. */
  function PurchaseEventOf(slots: Slots): PurchaseEvent {
    var success := SubAt(slots, 0);
    var error := SubAt(slots, 1);
    PurchaseEvent(
      if success.Some? then Some(PurchaseSuccessFrom(success.value)) else None,
      if error.Some? then Some(PurchaseErrorFrom(error.value)) else None)
  }

  function PurchaseEventFields(m: PurchaseEvent): seq<Field> {
    SlotFields(PurchaseEventSlots(m), 0)
  }

  function PurchaseEventFrom(fs: seq<Field>): PurchaseEvent {
    PurchaseEventOf(Fold(SetSlot, Unset(2), fs))
  }

  function EncodePurchaseEvent(m: PurchaseEvent): seq<byte> {
    FieldsBytes(PurchaseEventFields(m))
  }

  function DecodePurchaseEvent(bytes: seq<byte>): Result<PurchaseEvent, WireError> {
    match DecodeSlots(bytes, PURCHASE_EVENT)
    case Err(e) => Err(e)
    case Ok(slots) => Ok(PurchaseEventOf(slots))
  }

  predicate PurchaseEventFits(m: PurchaseEvent) {
    (m.success.Some? ==> PurchaseSuccessFits(m.success.value))
    && (m.error.Some? ==> PurchaseErrorFits(m.error.value))
  }

  /** The slots of a well-typed event are well typed, nested messages included. */
  lemma {:induction false} PurchaseEventSlotsFit(m: PurchaseEvent)
    requires PurchaseEventFits(m)
    ensures SlotsFit(PurchaseEventSlots(m), PURCHASE_EVENT)
  {
    if m.success.Some? {
      PurchaseSuccessSlotsFit(m.success.value);
      SlotFieldsFit(PurchaseSuccessSlots(m.success.value), 0, PURCHASE_SUCCESS);
    }
    if m.error.Some? {
      PurchaseErrorSlotsFit(m.error.value);
      SlotFieldsFit(PurchaseErrorSlots(m.error.value), 0, PURCHASE_ERROR);
    }
  }

  /** Decoding the fields of an event rebuilds it, nested messages included. */
  lemma {:induction false} PurchaseEventFromFields(m: PurchaseEvent)
    ensures PurchaseEventFrom(PurchaseEventFields(m)) == m
  {
    NestedSlots(PurchaseEventSlots(m));
    PurchaseEventSlotsBack(m);
  }

  lemma {:induction false} PurchaseEventSlotsBack(m: PurchaseEvent)
    ensures PurchaseEventOf(PurchaseEventSlots(m)) == m
  {
    var slots := PurchaseEventSlots(m);
    if m.success.Some? {
      PurchaseSuccessFromFields(m.success.value);
    }
    assert PurchaseEventOf(slots).success == m.success;
    if m.error.Some? {
      PurchaseErrorFromFields(m.error.value);
    }
    assert PurchaseEventOf(slots).error == m.error;
  }

  /** A purchase event round-trips with whichever of its nested success and error were set. */
  lemma {:induction false} PurchaseEventRoundTrip(m: PurchaseEvent)
    requires PurchaseEventFits(m) && |EncodePurchaseEvent(m)| < TWO_31
    ensures DecodePurchaseEvent(EncodePurchaseEvent(m)) == Ok(m)
  {
    PurchaseEventSlotsFit(m);
    SlotsRoundTrip(PurchaseEventSlots(m), PURCHASE_EVENT);
    PurchaseEventSlotsBack(m);
  }

  // ---- PollPurchaseEventsResponse ----

  /** `events` absent and `events` empty are both the empty sequence: the encoder writes nothing for either. */
  datatype PollPurchaseEventsResponse = PollPurchaseEventsResponse(events: seq<PurchaseEvent>, isFinished: Option<bool>)

  const POLL_PURCHASE_EVENTS_RESPONSE: Schema := Schema([KMessage(PURCHASE_EVENT), KBool])
  const EMPTY_POLL_PURCHASE_EVENTS_RESPONSE: PollPurchaseEventsResponse := PollPurchaseEventsResponse([], None)

  /** `for (let value of array$events)`: one field 1 per event, in array order. */
  function EventFields(es: seq<PurchaseEvent>): (r: seq<Field>)
    ensures |r| == |es|
  {
    if |es| == 0 then [] else [Field(1, Sub(PurchaseEventFields(es[0])))] + EventFields(es[1..])
  }

  /** `if ($is_finished !== undefined) { writeVarint32(bb, 16); writeByte(bb, $is_finished ? 1 : 0); }` */
  function IsFinishedField(o: Option<bool>): seq<Field> {
    if o.Some? then [Field(2, Flag(o.value))] else []
  }

  function PollPurchaseEventsResponseFields(m: PollPurchaseEventsResponse): seq<Field> {
    EventFields(m.events) + IsFinishedField(m.isFinished)
  }

  /** `values.push(_decodePurchaseEvent(bb))` appends; `message.is_finished = !!readByte(bb)` replaces. */
  function ApplyPollPurchaseEventsResponse(m: PollPurchaseEventsResponse, f: Field): PollPurchaseEventsResponse {
    if f.number == 1 && f.value.Sub? then
      m.(events := m.events + [PurchaseEventFrom(f.value.fields)])
    else if f.number == 2 && f.value.Flag? then m.(isFinished := Some(f.value.flag))
    else m
  }

  function EncodePollPurchaseEventsResponse(m: PollPurchaseEventsResponse): seq<byte> {
    FieldsBytes(PollPurchaseEventsResponseFields(m))
  }

  function DecodePollPurchaseEventsResponse(bytes: seq<byte>): Result<PollPurchaseEventsResponse, WireError> {
    DecodeMessage(bytes, POLL_PURCHASE_EVENTS_RESPONSE, ApplyPollPurchaseEventsResponse, EMPTY_POLL_PURCHASE_EVENTS_RESPONSE)
  }

  predicate PollPurchaseEventsResponseFits(m: PollPurchaseEventsResponse) {
    forall i :: 0 <= i < |m.events| ==> PurchaseEventFits(m.events[i])
  }

  /** Decoding the encoded events appends them to what was read before, in array order. */
  lemma {:induction false} EventsAppend(acc: PollPurchaseEventsResponse, es: seq<PurchaseEvent>)
    ensures Fold(ApplyPollPurchaseEventsResponse, acc, EventFields(es)) == acc.(events := acc.events + es)
    decreases |es|
  {
    if |es| == 0 {
      assert acc.events + es == acc.events;
    } else {
      var f := Field(1, Sub(PurchaseEventFields(es[0])));
      PurchaseEventFromFields(es[0]);
      var acc1 := acc.(events := acc.events + [es[0]]);
      assert ApplyPollPurchaseEventsResponse(acc, f) == acc1;
      FoldFront(ApplyPollPurchaseEventsResponse, acc, [f], EventFields(es[1..]));
      EventsAppend(acc1, es[1..]);
      assert acc1.events + es[1..] == acc.events + es;
    }
  }

  lemma {:induction false} EventFieldsFit(es: seq<PurchaseEvent>)
    requires forall i :: 0 <= i < |es| ==> PurchaseEventFits(es[i])
    ensures FieldsFit(EventFields(es), POLL_PURCHASE_EVENTS_RESPONSE)
    decreases |es|
  {
    if |es| > 0 {
      PurchaseEventSlotsFit(es[0]);
      SlotFieldsFit(PurchaseEventSlots(es[0]), 0, PURCHASE_EVENT);
      var f := Field(1, Sub(PurchaseEventFields(es[0])));
      assert FieldsFit([f], POLL_PURCHASE_EVENTS_RESPONSE);
      assert forall i :: 0 <= i < |es[1..]| ==> PurchaseEventFits(es[1..][i]) by {
        forall i | 0 <= i < |es[1..]| ensures PurchaseEventFits(es[1..][i]) {
          assert es[1..][i] == es[i + 1];
        }
      }
      EventFieldsFit(es[1..]);
      FitsConcat([f], EventFields(es[1..]), POLL_PURCHASE_EVENTS_RESPONSE);
    }
  }

  lemma {:induction false} PollPurchaseEventsResponseFold(m: PollPurchaseEventsResponse)
    ensures Fold(ApplyPollPurchaseEventsResponse, EMPTY_POLL_PURCHASE_EVENTS_RESPONSE, PollPurchaseEventsResponseFields(m)) == m
  {
    var step := ApplyPollPurchaseEventsResponse;
    var a1, a2 := EventFields(m.events), IsFinishedField(m.isFinished);
    FoldConcat(step, EMPTY_POLL_PURCHASE_EVENTS_RESPONSE, a1, a2);
    EventsAppend(EMPTY_POLL_PURCHASE_EVENTS_RESPONSE, m.events);
    assert EMPTY_POLL_PURCHASE_EVENTS_RESPONSE.events + m.events == m.events;
    FoldFront(step, EMPTY_POLL_PURCHASE_EVENTS_RESPONSE.(events := m.events), a2, []);
    assert a2 + [] == a2;
  }

  /**
   * A poll response round-trips: its events come back in array order, and the bool
   * (one byte 0 or 1, read back as "byte != 0") comes back as itself.
   */
  lemma {:induction false} PollPurchaseEventsResponseRoundTrip(m: PollPurchaseEventsResponse)
    requires PollPurchaseEventsResponseFits(m) && |EncodePollPurchaseEventsResponse(m)| < TWO_31
    ensures DecodePollPurchaseEventsResponse(EncodePollPurchaseEventsResponse(m)) == Ok(m)
  {
    var s := POLL_PURCHASE_EVENTS_RESPONSE;
    EventFieldsFit(m.events);
    assert FieldsFit(IsFinishedField(m.isFinished), s);
    FitsConcat(EventFields(m.events), IsFinishedField(m.isFinished), s);
    PollPurchaseEventsResponseFold(m);
    DecodeFields(PollPurchaseEventsResponseFields(m), s, ApplyPollPurchaseEventsResponse, EMPTY_POLL_PURCHASE_EVENTS_RESPONSE, m);
  }
}
