// The message codecs of the ad service: the network description of a loaded ad, the
// response information that nests it (once, and repeated), and the load/show responses,
// each of which carries one of several event kinds as a nested message.
module AdMessages {
  import opened Wrappers
  import opened JsNumbers
  import opened Utf8
  import opened Wire
  import opened Records
  import opened Messages

  // ---- AdNetworkResponseInfo ----

  datatype AdNetworkResponseInfo = AdNetworkResponseInfo(
    adSourceId: Option<JsString>,
    adSourceName: Option<JsString>,
    adSourceInstanceId: Option<JsString>,
    adSourceInstanceName: Option<JsString>,
    adNetworkClassName: Option<JsString>)

  /** Fields 1..5 are strings. */
  const AD_NETWORK_RESPONSE_INFO: Schema := Schema([KText, KText, KText, KText, KText])

  function AdNetworkResponseInfoSlots(m: AdNetworkResponseInfo): Slots {
    [TextSlot(m.adSourceId), TextSlot(m.adSourceName), TextSlot(m.adSourceInstanceId),
     TextSlot(m.adSourceInstanceName), TextSlot(m.adNetworkClassName)]
  }

  function AdNetworkResponseInfoOf(slots: Slots): AdNetworkResponseInfo {
    AdNetworkResponseInfo(TextAt(slots, 0), TextAt(slots, 1), TextAt(slots, 2), TextAt(slots, 3), TextAt(slots, 4))
  }

  /** _encodeAdNetworkResponseInfo: tags 10, 18, 26, 34, 42, each string only when set. */
  function AdNetworkResponseInfoFields(m: AdNetworkResponseInfo): seq<Field> {
    SlotFields(AdNetworkResponseInfoSlots(m), 0)
  }

  /** _decodeAdNetworkResponseInfo over the fields of its loop. */
  function AdNetworkResponseInfoFrom(fs: seq<Field>): AdNetworkResponseInfo {
    AdNetworkResponseInfoOf(Fold(SetSlot, Unset(5), fs))
  }

  function EncodeAdNetworkResponseInfo(m: AdNetworkResponseInfo): seq<byte> {
    FieldsBytes(AdNetworkResponseInfoFields(m))
  }

  function DecodeAdNetworkResponseInfo(bytes: seq<byte>): Result<AdNetworkResponseInfo, WireError> {
    match DecodeSlots(bytes, AD_NETWORK_RESPONSE_INFO)
    case Err(e) => Err(e)
    case Ok(slots) => Ok(AdNetworkResponseInfoOf(slots))
  }

  predicate AdNetworkResponseInfoFits(m: AdNetworkResponseInfo) {
    TextFits(m.adSourceId) && TextFits(m.adSourceName) && TextFits(m.adSourceInstanceId)
    && TextFits(m.adSourceInstanceName) && TextFits(m.adNetworkClassName)
  }

  lemma {:induction false} AdNetworkResponseInfoSlotsFit(m: AdNetworkResponseInfo)
    requires AdNetworkResponseInfoFits(m)
    ensures SlotsFit(AdNetworkResponseInfoSlots(m), AD_NETWORK_RESPONSE_INFO)
  {
  }

  lemma {:induction false} AdNetworkResponseInfoSlotsBack(m: AdNetworkResponseInfo)
    ensures AdNetworkResponseInfoOf(AdNetworkResponseInfoSlots(m)) == m
  {
  }

  /**
   * Each of the five strings round-trips whatever the others are: every combination of
   * set and unset fields comes back as itself.
   */
  lemma {:induction false} AdNetworkResponseInfoRoundTrip(m: AdNetworkResponseInfo)
    requires AdNetworkResponseInfoFits(m) && |EncodeAdNetworkResponseInfo(m)| < TWO_31
    ensures DecodeAdNetworkResponseInfo(EncodeAdNetworkResponseInfo(m)) == Ok(m)
  {
    AdNetworkResponseInfoSlotsFit(m);
    AdNetworkResponseInfoSlotsBack(m);
    SlotsRoundTrip(AdNetworkResponseInfoSlots(m), AD_NETWORK_RESPONSE_INFO);
  }

  /** The nested fields an encoder writes for an info decode, inside an outer message, to the info. */
  lemma {:induction false} AdNetworkResponseInfoFromFields(m: AdNetworkResponseInfo)
    ensures AdNetworkResponseInfoFrom(AdNetworkResponseInfoFields(m)) == m
  {
    NestedSlots(AdNetworkResponseInfoSlots(m));
    AdNetworkResponseInfoSlotsBack(m);
  }

  /** A string field repeated in the input keeps its last occurrence; the other four are untouched by it. */
  lemma {:induction false} AdNetworkResponseInfoLastWins(fs: seq<Field>, n: nat)
    requires 1 <= n <= 5
    ensures |Fold(SetSlot, Unset(5), fs)| == 5
    ensures Fold(SetSlot, Unset(5), fs)[n - 1] == LastOf(fs, n)
  {
    LastOccurrenceWins(Unset(5), fs, n);
  }

  /**
   * `loaded_ad_network_info` and each `ad_network_info_array` entry are read under the limit
   * pushTemporaryLength set from their declared length: the info's loop ends at or before
   * that limit (or has read nothing, when the declared length is negative).
   */
  lemma {:induction false} NestedInfoWithinDeclaredLength(c: Cursor)
    requires PushTemporaryLength(c).Ok?
    requires ParseFields(PushTemporaryLength(c).value.1, AD_NETWORK_RESPONSE_INFO).Ok?
    ensures var (length, next) := ReadVarint32(c).value;
            var inner := PushTemporaryLength(c).value.1;
            var after := ParseFields(inner, AD_NETWORK_RESPONSE_INFO).value.1;
            inner.limit == next.offset + length && (after.offset <= next.offset + length || after == inner)
  {
    FlatReadsWithin(PushTemporaryLength(c).value.1, AD_NETWORK_RESPONSE_INFO);
  }

  // ---- ResponseInfo ----

  /** `ad_network_info_array` absent and empty are both the empty sequence: the encoder writes nothing for either. */
  datatype ResponseInfo = ResponseInfo(
    responseId: Option<JsString>,
    loadedAdNetworkInfo: Option<AdNetworkResponseInfo>,
    adNetworkInfoArray: seq<AdNetworkResponseInfo>)

  const RESPONSE_INFO: Schema := Schema([KText, KMessage(AD_NETWORK_RESPONSE_INFO), KMessage(AD_NETWORK_RESPONSE_INFO)])
  const EMPTY_RESPONSE_INFO: ResponseInfo := ResponseInfo(None, None, [])

  /** `if ($loaded_ad_network_info !== undefined)`: tag 18 and the delimited nested info. */
  function LoadedInfoField(o: Option<AdNetworkResponseInfo>): seq<Field> {
    if o.Some? then [Field(2, Sub(AdNetworkResponseInfoFields(o.value)))] else []
  }

  /** `for (let value of array$ad_network_info_array)`: one field 3 per info, in array order. */
  function InfoArrayFields(xs: seq<AdNetworkResponseInfo>): (r: seq<Field>)
    ensures |r| == |xs|
  {
    if |xs| == 0 then [] else [Field(3, Sub(AdNetworkResponseInfoFields(xs[0])))] + InfoArrayFields(xs[1..])
  }

  function ResponseInfoFields(m: ResponseInfo): seq<Field> {
    SlotFields([TextSlot(m.responseId)], 0) + LoadedInfoField(m.loadedAdNetworkInfo) + InfoArrayFields(m.adNetworkInfoArray)
  }

  /**
   * The `switch` of _decodeResponseInfo: `response_id` and `loaded_ad_network_info` are
   * replaced, `values.push(...)` appends to `ad_network_info_array`.
   */
  function ApplyResponseInfo(m: ResponseInfo, f: Field): ResponseInfo {
    if f.number == 1 && f.value.Text? then m.(responseId := Some(f.value.text))
    else if f.number == 2 && f.value.Sub? then m.(loadedAdNetworkInfo := Some(AdNetworkResponseInfoFrom(f.value.fields)))
    else if f.number == 3 && f.value.Sub? then m.(adNetworkInfoArray := m.adNetworkInfoArray + [AdNetworkResponseInfoFrom(f.value.fields)])
    else m
  }

  function EncodeResponseInfo(m: ResponseInfo): seq<byte> {
    FieldsBytes(ResponseInfoFields(m))
  }

  function DecodeResponseInfo(bytes: seq<byte>): Result<ResponseInfo, WireError> {
    DecodeMessage(bytes, RESPONSE_INFO, ApplyResponseInfo, EMPTY_RESPONSE_INFO)
  }

  predicate ResponseInfoFits(m: ResponseInfo) {
    TextFits(m.responseId)
    && (m.loadedAdNetworkInfo.Some? ==> AdNetworkResponseInfoFits(m.loadedAdNetworkInfo.value))
    && forall i :: 0 <= i < |m.adNetworkInfoArray| ==> AdNetworkResponseInfoFits(m.adNetworkInfoArray[i])
  }

  /** The infos of every field 3 with a nested message, in the order they are met. */
  function PushedInfos(fs: seq<Field>): seq<AdNetworkResponseInfo>
    decreases |fs|
  {
    if |fs| == 0 then []
    else
      var last := fs[|fs| - 1];
      PushedInfos(fs[..|fs| - 1]) + (if last.number == 3 && last.value.Sub? then [AdNetworkResponseInfoFrom(last.value.fields)] else [])
  }

  /** The last string held by a field 1, if any. */
  function LastResponseId(fs: seq<Field>): Option<JsString>
    decreases |fs|
  {
    if |fs| == 0 then None
    else if fs[|fs| - 1].number == 1 && fs[|fs| - 1].value.Text? then Some(fs[|fs| - 1].value.text)
    else LastResponseId(fs[..|fs| - 1])
  }

  /** The fields of the last nested message held by a field 2, if any. */
  function LastLoadedInfo(fs: seq<Field>): Option<seq<Field>>
    decreases |fs|
  {
    if |fs| == 0 then None
    else if fs[|fs| - 1].number == 2 && fs[|fs| - 1].value.Sub? then Some(fs[|fs| - 1].value.fields)
    else LastLoadedInfo(fs[..|fs| - 1])
  }

  /**
   * Whatever fields the loop meets, in whatever order: the optional fields keep their last
   * occurrence (or their value before the fields, when none occurs), and the repeated field
   * appends every occurrence in order.
   */
  lemma {:induction false} ResponseInfoFieldOrder(acc: ResponseInfo, fs: seq<Field>)
    ensures Fold(ApplyResponseInfo, acc, fs).responseId ==
      if LastResponseId(fs).Some? then LastResponseId(fs) else acc.responseId
    ensures Fold(ApplyResponseInfo, acc, fs).loadedAdNetworkInfo ==
      if LastLoadedInfo(fs).Some? then Some(AdNetworkResponseInfoFrom(LastLoadedInfo(fs).value)) else acc.loadedAdNetworkInfo
    ensures Fold(ApplyResponseInfo, acc, fs).adNetworkInfoArray == acc.adNetworkInfoArray + PushedInfos(fs)
    decreases |fs|
  {
    if |fs| == 0 {
      assert acc.adNetworkInfoArray + [] == acc.adNetworkInfoArray;
    } else {
      var init, last := fs[..|fs| - 1], fs[|fs| - 1];
      assert init + [last] == fs;
      var prev := Fold(ApplyResponseInfo, acc, init);
      FoldConcat(ApplyResponseInfo, acc, init, [last]);
      FoldOne(ApplyResponseInfo, prev, last);
      assert Fold(ApplyResponseInfo, acc, fs) == ApplyResponseInfo(prev, last);
      ResponseInfoFieldOrder(acc, init);
      ResponseInfoStep(prev, last);
      assert PushedInfos(fs) == PushedInfos(init) + PushedInfos([last]);
      assert LastResponseId(fs) == if LastResponseId([last]).Some? then LastResponseId([last]) else LastResponseId(init);
      assert LastLoadedInfo(fs) == if LastLoadedInfo([last]).Some? then LastLoadedInfo([last]) else LastLoadedInfo(init);
    }
  }

  /** One field read into a response info, seen component by component. */
  lemma {:induction false} ResponseInfoStep(prev: ResponseInfo, last: Field)
    ensures ApplyResponseInfo(prev, last).responseId ==
      if LastResponseId([last]).Some? then LastResponseId([last]) else prev.responseId
    ensures ApplyResponseInfo(prev, last).loadedAdNetworkInfo ==
      if LastLoadedInfo([last]).Some? then Some(AdNetworkResponseInfoFrom(LastLoadedInfo([last]).value)) else prev.loadedAdNetworkInfo
    ensures ApplyResponseInfo(prev, last).adNetworkInfoArray == prev.adNetworkInfoArray + PushedInfos([last])
  {
    assert [last][..0] == [];
  }

  /** Decoding the encoded infos appends them to what was read before, in array order. */
  lemma {:induction false} InfoArrayAppend(acc: ResponseInfo, xs: seq<AdNetworkResponseInfo>)
    ensures Fold(ApplyResponseInfo, acc, InfoArrayFields(xs)) == acc.(adNetworkInfoArray := acc.adNetworkInfoArray + xs)
    decreases |xs|
  {
    if |xs| == 0 {
      assert acc.adNetworkInfoArray + xs == acc.adNetworkInfoArray;
    } else {
      var acc1 := InfoArrayHead(acc, xs);
      InfoArrayAppend(acc1, xs[1..]);
      assert acc1.adNetworkInfoArray + xs[1..] == acc.adNetworkInfoArray + xs;
    }
  }

  /** The first encoded info is one step of the fold: it is appended to the array read so far. */
  lemma {:induction false} InfoArrayHead(acc: ResponseInfo, xs: seq<AdNetworkResponseInfo>) returns (acc1: ResponseInfo)
    requires |xs| > 0
    ensures acc1 == acc.(adNetworkInfoArray := acc.adNetworkInfoArray + [xs[0]])
    ensures Fold(ApplyResponseInfo, acc, InfoArrayFields(xs)) == Fold(ApplyResponseInfo, acc1, InfoArrayFields(xs[1..]))
  {
    var f := Field(3, Sub(AdNetworkResponseInfoFields(xs[0])));
    AdNetworkResponseInfoFromFields(xs[0]);
    acc1 := acc.(adNetworkInfoArray := acc.adNetworkInfoArray + [xs[0]]);
    assert ApplyResponseInfo(acc, f) == acc1;
    var rest := InfoArrayFields(xs[1..]);
    assert InfoArrayFields(xs) == [f] + rest;
    FoldFront(ApplyResponseInfo, acc, [f], rest);
  }

  lemma {:induction false} InfoArrayFieldsFit(xs: seq<AdNetworkResponseInfo>)
    requires forall i :: 0 <= i < |xs| ==> AdNetworkResponseInfoFits(xs[i])
    ensures FieldsFit(InfoArrayFields(xs), RESPONSE_INFO)
    decreases |xs|
  {
    if |xs| > 0 {
      InfoFieldFits(3, xs[0]);
      var f := Field(3, Sub(AdNetworkResponseInfoFields(xs[0])));
      assert FieldsFit([f], RESPONSE_INFO);
      assert forall i :: 0 <= i < |xs[1..]| ==> AdNetworkResponseInfoFits(xs[1..][i]) by {
        forall i | 0 <= i < |xs[1..]| ensures AdNetworkResponseInfoFits(xs[1..][i]) {
          assert xs[1..][i] == xs[i + 1];
        }
      }
      InfoArrayFieldsFit(xs[1..]);
      FitsConcat([f], InfoArrayFields(xs[1..]), RESPONSE_INFO);
    }
  }

  lemma {:induction false} InfoFieldFits(n: nat, x: AdNetworkResponseInfo)
    requires n == 2 || n == 3
    requires AdNetworkResponseInfoFits(x)
    ensures FieldFits(Field(n, Sub(AdNetworkResponseInfoFields(x))), RESPONSE_INFO)
  {
    AdNetworkResponseInfoSlotsFit(x);
    SlotFieldsFit(AdNetworkResponseInfoSlots(x), 0, AD_NETWORK_RESPONSE_INFO);
  }

  lemma {:induction false} ResponseInfoFold(m: ResponseInfo)
    ensures Fold(ApplyResponseInfo, EMPTY_RESPONSE_INFO, ResponseInfoFields(m)) == m
  {
    var step := ApplyResponseInfo;
    var a1, a2, a3 := SlotFields([TextSlot(m.responseId)], 0), LoadedInfoField(m.loadedAdNetworkInfo), InfoArrayFields(m.adNetworkInfoArray);
    assert |a1| <= 1;
    var m1 := ResponseInfo(m.responseId, None, []);
    FoldFront(step, EMPTY_RESPONSE_INFO, a1, a2 + a3);
    assert a1 + a2 + a3 == a1 + (a2 + a3);
    assert (if |a1| == 0 then EMPTY_RESPONSE_INFO else step(EMPTY_RESPONSE_INFO, a1[0])) == m1;
    var m2 := ResponseInfo(m.responseId, m.loadedAdNetworkInfo, []);
    FoldFront(step, m1, a2, a3);
    if m.loadedAdNetworkInfo.Some? {
      AdNetworkResponseInfoFromFields(m.loadedAdNetworkInfo.value);
    }
    assert (if |a2| == 0 then m1 else step(m1, a2[0])) == m2;
    InfoArrayAppend(m2, m.adNetworkInfoArray);
    assert m2.adNetworkInfoArray + m.adNetworkInfoArray == m.adNetworkInfoArray;
  }

  /**
   * decodeResponseInfo(encodeResponseInfo(m)) == m: the id and the loaded network info come
   * back when set and stay unset otherwise, and the info array comes back in encounter order.
   */
  lemma {:induction false} ResponseInfoRoundTrip(m: ResponseInfo)
    requires ResponseInfoFits(m) && |EncodeResponseInfo(m)| < TWO_31
    ensures DecodeResponseInfo(EncodeResponseInfo(m)) == Ok(m)
  {
    var s := RESPONSE_INFO;
    var a1, a2, a3 := SlotFields([TextSlot(m.responseId)], 0), LoadedInfoField(m.loadedAdNetworkInfo), InfoArrayFields(m.adNetworkInfoArray);
    assert FieldsFit(a1, s) by {
      assert SlotsFit([TextSlot(m.responseId)], Schema([KText]));
      SlotFieldsFit([TextSlot(m.responseId)], 0, Schema([KText]));
    }
    if m.loadedAdNetworkInfo.Some? {
      InfoFieldFits(2, m.loadedAdNetworkInfo.value);
    }
    assert FieldsFit(a2, s);
    InfoArrayFieldsFit(m.adNetworkInfoArray);
    FitsConcat(a1, a2, s);
    FitsConcat(a1 + a2, a3, s);
    ResponseInfoFold(m);
    DecodeFields(ResponseInfoFields(m), s, ApplyResponseInfo, EMPTY_RESPONSE_INFO, m);
  }

  // ---- Event kinds ----

  /**
   * The payload of an event kind (LoadedEvent, ClickedEvent, ...). Its codec is not part of
   * this model: it is treated as a message with no known field, so it writes no bytes and
   * decodes to `{}` from whatever its delimited bytes hold.
   */
  datatype AdEvent = AdEvent

  /** Each event kind is a nested message with no known field. */
  const EVENT: Kind := KMessage(Schema([]))

  function EventSlot(o: Option<AdEvent>): Option<Value> {
    if o.Some? then Some(Sub([])) else None
  }

  function EventAt(slots: Slots, i: nat): Option<AdEvent> {
    if SubAt(slots, i).Some? then Some(AdEvent) else None
  }

  /** An event kind read back from the slot its encoder filled. */
  lemma {:induction false} EventSlotBack(slots: Slots, i: nat, o: Option<AdEvent>)
    requires i < |slots| && slots[i] == EventSlot(o)
    ensures EventAt(slots, i) == o
  {
    if o.Some? {
      assert o.value == AdEvent;
    }
  }

  /** The slots of a message whose every field is an event kind, one per option, in field order. */
  function EventSlots(os: seq<Option<AdEvent>>): Slots {
    seq(|os|, i requires 0 <= i < |os| => EventSlot(os[i]))
  }

  /** The table of such a message: n fields, each an event kind. */
  function EventSchema(n: nat): Schema {
    Schema(seq(n, _ => EVENT))
  }

  /** Slots of event kinds always fit: an empty nested message is well typed for any table. */
  lemma {:induction false} EventSlotsFit(os: seq<Option<AdEvent>>)
    requires |os| < 0x1000_0000
    ensures SlotsFit(EventSlots(os), EventSchema(|os|))
  {
    var slots, schema := EventSlots(os), EventSchema(|os|);
    forall i | 0 <= i < |slots| && slots[i].Some? ensures ValueFits(slots[i].value, schema.kinds[i]) {
      assert slots[i].value == Sub([]) && schema.kinds[i] == EVENT;
      assert FieldsFit([], Schema([]));
    }
  }

  /** The field numbers of the set slots. */
  function KindsOf(slots: Slots): set<nat> {
    set i | 0 <= i < |slots| && slots[i].Some? :: i + 1
  }

  /** The encoder's fields for slots of which only slot j is set: one field, number j + 1, from k <= j on. */
  lemma {:induction false} SingleSlotFields(slots: Slots, j: nat, k: nat)
    requires j < |slots| && k <= j && slots[j].Some?
    requires forall i :: 0 <= i < |slots| && i != j ==> slots[i].None?
    ensures SlotFields(slots, k) == [Field(j + 1, slots[j].value)]
    decreases j - k
  {
    if k < j {
      SingleSlotFields(slots, j, k + 1);
    } else {
      NoSlotFields(slots, j + 1);
    }
  }

  lemma {:induction false} NoSlotFields(slots: Slots, k: nat)
    requires forall i :: k <= i < |slots| ==> slots[i].None?
    ensures SlotFields(slots, k) == []
    decreases |slots| - k
  {
    if k < |slots| {
      NoSlotFields(slots, k + 1);
    }
  }

  /** A single event kind j + 1 of at most 15 encodes to its tag `(j + 1) << 3 | 2` and the empty length 0. */
  lemma {:induction false} SingleEventBytes(slots: Slots, j: nat)
    requires j < |slots| < 16 && slots[j] == Some(Sub([]))
    requires forall i :: 0 <= i < |slots| && i != j ==> slots[i].None?
    ensures FieldsBytes(SlotFields(slots, 0)) == [(j + 1) * 8 + 2, 0]
  {
    var f := Field(j + 1, Sub([]));
    SingleSlotFields(slots, j, 0);
    assert TagOf(f) == (j + 1) * 8 + 2;
    assert Varint32Bytes(TagOf(f)) == [(j + 1) * 8 + 2] by {
      assert ToUint32(TagOf(f)) == TagOf(f);
    }
    assert PayloadBytes(f) == [0] by {
      assert FieldsBytes([]) == [];
      assert ToUint32(0) == 0;
      assert Varint32Bytes(0) == [0];
    }
    assert [f][1..] == [];
    assert FieldsBytes([f]) == FieldBytes(f) + FieldsBytes([]);
  }

  /** Slots whose set slots are exactly field k: slot k - 1 is the one set slot. */
  lemma {:induction false} SingleKindSlot(slots: Slots, k: nat)
    requires KindsOf(slots) == {k}
    ensures 1 <= k <= |slots| && slots[k - 1].Some?
    ensures forall i :: 0 <= i < |slots| && i != k - 1 ==> slots[i].None?
  {
    assert k in KindsOf(slots);
    forall i | 0 <= i < |slots| && i != k - 1 ensures slots[i].None? {
      assert i + 1 !in KindsOf(slots);
    }
  }

  /** The converse: when only slot k - 1 is set, k is the one kind. */
  lemma {:induction false} KindsOfSingle(slots: Slots, k: nat)
    requires 1 <= k <= |slots| && slots[k - 1].Some?
    requires forall i :: 0 <= i < |slots| && i != k - 1 ==> slots[i].None?
    ensures KindsOf(slots) == {k}
  {
    assert k in KindsOf(slots);
    forall j | j in KindsOf(slots) ensures j == k {
      var i :| 0 <= i < |slots| && slots[i].Some? && j == i + 1;
    }
  }

  // ---- LoadAdResponse ----

  datatype LoadAdResponse = LoadAdResponse(
    loaded: Option<AdEvent>,
    clicked: Option<AdEvent>,
    dismissed: Option<AdEvent>,
    failedToShow: Option<AdEvent>,
    impression: Option<AdEvent>,
    show: Option<AdEvent>)

  /** Fields 1..6, tags 10, 18, 26, 34, 42, 50. */
  const LOAD_AD_RESPONSE: Schema := EventSchema(6)

  function LoadAdResponseSlots(m: LoadAdResponse): Slots {
    EventSlots([m.loaded, m.clicked, m.dismissed, m.failedToShow, m.impression, m.show])
  }

  function LoadAdResponseOf(slots: Slots): LoadAdResponse {
    LoadAdResponse(EventAt(slots, 0), EventAt(slots, 1), EventAt(slots, 2), EventAt(slots, 3), EventAt(slots, 4), EventAt(slots, 5))
  }

  function EncodeLoadAdResponse(m: LoadAdResponse): seq<byte> {
    FieldsBytes(SlotFields(LoadAdResponseSlots(m), 0))
  }

  function DecodeLoadAdResponse(bytes: seq<byte>): Result<LoadAdResponse, WireError> {
    match DecodeSlots(bytes, LOAD_AD_RESPONSE)
    case Err(e) => Err(e)
    case Ok(slots) => Ok(LoadAdResponseOf(slots))
  }

  /** The field numbers of the kinds that are set. */
  function LoadAdKinds(m: LoadAdResponse): set<nat> {
    KindsOf(LoadAdResponseSlots(m))
  }

  lemma {:induction false} LoadAdResponseSlotsBack(m: LoadAdResponse)
    ensures LoadAdResponseOf(LoadAdResponseSlots(m)) == m
  {
    var slots := LoadAdResponseSlots(m);
    EventSlotBack(slots, 0, m.loaded);
    EventSlotBack(slots, 1, m.clicked);
    EventSlotBack(slots, 2, m.dismissed);
    EventSlotBack(slots, 3, m.failedToShow);
    EventSlotBack(slots, 4, m.impression);
    EventSlotBack(slots, 5, m.show);
  }

  /** A load response round-trips: each kind is set after decoding iff it was set before. */
  lemma {:induction false} LoadAdResponseRoundTrip(m: LoadAdResponse)
    requires |EncodeLoadAdResponse(m)| < TWO_31
    ensures DecodeLoadAdResponse(EncodeLoadAdResponse(m)) == Ok(m)
  {
    EventSlotsFit([m.loaded, m.clicked, m.dismissed, m.failedToShow, m.impression, m.show]);
    SlotsRoundTrip(LoadAdResponseSlots(m), LOAD_AD_RESPONSE);
    LoadAdResponseSlotsBack(m);
  }

  /** A response with one kind k set is the two bytes `k << 3 | 2`, 0, and decodes with only that kind set. */
  lemma {:induction false} LoadAdSingleKind(m: LoadAdResponse, k: nat)
    requires LoadAdKinds(m) == {k}
    ensures EncodeLoadAdResponse(m) == [k * 8 + 2, 0]
    ensures DecodeLoadAdResponse(EncodeLoadAdResponse(m)).Ok?
    ensures LoadAdKinds(DecodeLoadAdResponse(EncodeLoadAdResponse(m)).value) == {k}
  {
    var slots := LoadAdResponseSlots(m);
    SingleKindSlot(slots, k);
    SingleEventBytes(slots, k - 1);
    var bytes := EncodeLoadAdResponse(m);
    assert bytes == FieldsBytes(SlotFields(slots, 0));
    assert bytes == [k * 8 + 2, 0] by {
      assert (k - 1 + 1) * 8 == k * 8;
    }
    LoadAdResponseRoundTrip(m);
  }

  // ---- ShowAdResponse ----

  datatype ShowAdResponse = ShowAdResponse(
    requested: Option<AdEvent>,
    clicked: Option<AdEvent>,
    dismissed: Option<AdEvent>,
    failedToShow: Option<AdEvent>,
    impression: Option<AdEvent>,
    show: Option<AdEvent>,
    userEarnedReward: Option<AdEvent>)

  /** Fields 1..7, tags 10 ... 58. */
  const SHOW_AD_RESPONSE: Schema := EventSchema(7)

  function ShowAdResponseSlots(m: ShowAdResponse): Slots {
    EventSlots([m.requested, m.clicked, m.dismissed, m.failedToShow, m.impression, m.show, m.userEarnedReward])
  }

  function ShowAdResponseOf(slots: Slots): ShowAdResponse {
    ShowAdResponse(EventAt(slots, 0), EventAt(slots, 1), EventAt(slots, 2), EventAt(slots, 3),
      EventAt(slots, 4), EventAt(slots, 5), EventAt(slots, 6))
  }

  function EncodeShowAdResponse(m: ShowAdResponse): seq<byte> {
    FieldsBytes(SlotFields(ShowAdResponseSlots(m), 0))
  }

  function DecodeShowAdResponse(bytes: seq<byte>): Result<ShowAdResponse, WireError> {
    match DecodeSlots(bytes, SHOW_AD_RESPONSE)
    case Err(e) => Err(e)
    case Ok(slots) => Ok(ShowAdResponseOf(slots))
  }

  function ShowAdKinds(m: ShowAdResponse): set<nat> {
    KindsOf(ShowAdResponseSlots(m))
  }

  lemma {:induction false} ShowAdResponseSlotsBack(m: ShowAdResponse)
    ensures ShowAdResponseOf(ShowAdResponseSlots(m)) == m
  {
    var slots := ShowAdResponseSlots(m);
    EventSlotBack(slots, 0, m.requested);
    EventSlotBack(slots, 1, m.clicked);
    EventSlotBack(slots, 2, m.dismissed);
    EventSlotBack(slots, 3, m.failedToShow);
    EventSlotBack(slots, 4, m.impression);
    EventSlotBack(slots, 5, m.show);
    EventSlotBack(slots, 6, m.userEarnedReward);
  }

  lemma {:induction false} ShowAdResponseRoundTrip(m: ShowAdResponse)
    requires |EncodeShowAdResponse(m)| < TWO_31
    ensures DecodeShowAdResponse(EncodeShowAdResponse(m)) == Ok(m)
  {
    EventSlotsFit([m.requested, m.clicked, m.dismissed, m.failedToShow, m.impression, m.show, m.userEarnedReward]);
    SlotsRoundTrip(ShowAdResponseSlots(m), SHOW_AD_RESPONSE);
    ShowAdResponseSlotsBack(m);
  }

  /** One kind k set: the bytes `k << 3 | 2`, 0 (58, 0 for `user_earned_reward`), decoding to that kind alone. */
  lemma {:induction false} ShowAdSingleKind(m: ShowAdResponse, k: nat)
    requires ShowAdKinds(m) == {k}
    ensures EncodeShowAdResponse(m) == [k * 8 + 2, 0]
    ensures DecodeShowAdResponse(EncodeShowAdResponse(m)).Ok?
    ensures ShowAdKinds(DecodeShowAdResponse(EncodeShowAdResponse(m)).value) == {k}
  {
    var slots := ShowAdResponseSlots(m);
    SingleKindSlot(slots, k);
    SingleEventBytes(slots, k - 1);
    var bytes := EncodeShowAdResponse(m);
    assert bytes == FieldsBytes(SlotFields(slots, 0));
    assert bytes == [k * 8 + 2, 0] by {
      assert (k - 1 + 1) * 8 == k * 8;
    }
    ShowAdResponseRoundTrip(m);
  }
}
