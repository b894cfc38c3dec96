// The host side of the purchase service: CreateOneTimePurchaseOrder starts an SDK purchase
// and registers it in the operation table, the SDK's callbacks queue purchase events in it,
// and PollPurchaseEvents hands the queue to the engine. The other methods map an SDK result
// to a response, filling in defaults for what the SDK left out.
module IapServiceImpl {
  import opened Wrappers
  import opened JsNumbers
  import opened Utf8
  import opened IapMessages
  import opened Operations

  // ---- SDK results ----

  /** An entry of `IAP.getProductItemList()`'s `products`. */
  datatype SdkProduct = SdkProduct(
    sku: Option<JsString>,
    displayName: Option<JsString>,
    displayAmount: Option<JsString>,
    iconUrl: Option<JsString>,
    description: Option<JsString>)

  /** An entry of `IAP.getPendingOrders()`'s `orders`. */
  datatype SdkPendingOrder = SdkPendingOrder(orderId: Option<JsString>, sku: Option<JsString>)

  /** An entry of `IAP.getCompletedOrRefundedOrders(...)`'s `orders`. */
  datatype SdkCompletedOrder = SdkCompletedOrder(
    orderId: Option<JsString>, sku: Option<JsString>, status: Option<JsString>, date: Option<JsString>)

  /** The page `IAP.getCompletedOrRefundedOrders(...)` answers. */
  datatype SdkCompletedPage = SdkCompletedPage(hasNext: Option<bool>, nextKey: Option<JsString>, orders: seq<SdkCompletedOrder>)

  /** `event.data` of a `success` purchase event. */
  datatype SdkPurchaseData = SdkPurchaseData(
    orderId: Option<JsString>,
    displayName: Option<JsString>,
    displayAmount: Option<JsString>,
    amount: Option<Long>,
    currency: Option<JsString>,
    fraction: Option<int32>,
    miniAppIconUrl: Option<JsString>)

  /** The error the SDK passes to `onError`; either part may be missing. */
  datatype SdkError = SdkError(code: Option<JsString>, message: Option<JsString>)

  // ---- Responses whose codecs are not part of this model ----

  datatype PendingOrder = PendingOrder(orderId: Option<JsString>, sku: Option<JsString>)

  datatype CompletedOrRefundedOrder = CompletedOrRefundedOrder(
    orderId: Option<JsString>, sku: Option<JsString>, status: Option<JsString>, date: Option<JsString>)

  datatype CompletedOrRefundedOrdersResponse = CompletedOrRefundedOrdersResponse(
    hasNext: Option<bool>, nextKey: Option<JsString>, orders: seq<CompletedOrRefundedOrder>)

  // ---- Defaults ----

  /** `x ?? ""`. */
  function OrEmpty(o: Option<JsString>): JsString {
    if o.Some? then o.value else []
  }

  /** `x ?? d`. */
  function OrElse(o: Option<JsString>, d: JsString): JsString {
    if o.Some? then o.value else d
  }

  const UNKNOWN_ERROR: JsString := Literal("UNKNOWN_ERROR")
  const UNKNOWN_ERROR_MESSAGE: JsString := Literal("An unknown error occurred.")

  // ---- The pure mappings ----

  function ProductItemOf(p: SdkProduct): ProductListItem {
    ProductListItem(p.sku, p.displayName, p.displayAmount, p.iconUrl, p.description)
  }

  function ProductItemsOf(ps: seq<SdkProduct>): (r: seq<ProductListItem>)
    ensures |r| == |ps| && forall i :: 0 <= i < |ps| ==> r[i] == ProductItemOf(ps[i])
    decreases |ps|
  {
    if |ps| == 0 then [] else [ProductItemOf(ps[0])] + ProductItemsOf(ps[1..])
  }

  /**
   * GetProductItemList: no SDK result gives no products; otherwise each product is copied
   * field for field, in the SDK's order.
   */
  function GetProductItemList(result: Option<seq<SdkProduct>>): (products: seq<ProductListItem>)
    ensures result.None? ==> products == []
    ensures result.Some? ==> |products| == |result.value|
    ensures result.Some? ==> forall i :: 0 <= i < |products| ==>
      && products[i].sku == result.value[i].sku
      && products[i].displayName == result.value[i].displayName
      && products[i].displayAmount == result.value[i].displayAmount
      && products[i].iconUrl == result.value[i].iconUrl
      && products[i].description == result.value[i].description
  {
    if result.None? then [] else ProductItemsOf(result.value)
  }

  function PendingOrdersOf(os: seq<SdkPendingOrder>): (r: seq<PendingOrder>)
    ensures |r| == |os| && forall i :: 0 <= i < |os| ==> r[i] == PendingOrder(os[i].orderId, os[i].sku)
    decreases |os|
  {
    if |os| == 0 then [] else [PendingOrder(os[0].orderId, os[0].sku)] + PendingOrdersOf(os[1..])
  }

  /** GetPendingOrders: no SDK result gives no orders; otherwise id and sku of each order, in order. */
  function GetPendingOrders(result: Option<seq<SdkPendingOrder>>): (orders: seq<PendingOrder>)
    ensures result.None? ==> orders == []
    ensures result.Some? ==> |orders| == |result.value|
    ensures result.Some? ==> forall i :: 0 <= i < |orders| ==>
      orders[i].orderId == result.value[i].orderId && orders[i].sku == result.value[i].sku
  {
    if result.None? then [] else PendingOrdersOf(result.value)
  }

  function CompletedOrderOf(o: SdkCompletedOrder): CompletedOrRefundedOrder {
    CompletedOrRefundedOrder(o.orderId, o.sku, o.status, o.date)
  }

  function CompletedOrdersOf(os: seq<SdkCompletedOrder>): (r: seq<CompletedOrRefundedOrder>)
    ensures |r| == |os| && forall i :: 0 <= i < |os| ==> r[i] == CompletedOrderOf(os[i])
    decreases |os|
  {
    if |os| == 0 then [] else [CompletedOrderOf(os[0])] + CompletedOrdersOf(os[1..])
  }

  /**
   * GetCompletedOrRefundedOrders: no SDK result gives `{ has_next: false, next_key: "", orders: [] }`;
   * otherwise `has_next` is the SDK's, the next key is always set (`?? ""`), and the orders are
   * copied in order.
   */
  function GetCompletedOrRefundedOrders(result: Option<SdkCompletedPage>): (r: CompletedOrRefundedOrdersResponse)
    ensures result.None? ==> r == CompletedOrRefundedOrdersResponse(Some(false), Some([]), [])
    ensures r.nextKey.Some?
    ensures result.Some? ==> r.hasNext == result.value.hasNext
    ensures result.Some? ==> r.nextKey.value == OrEmpty(result.value.nextKey)
    ensures result.Some? ==> |r.orders| == |result.value.orders|
    ensures result.Some? ==> forall i :: 0 <= i < |r.orders| ==>
      && r.orders[i].orderId == result.value.orders[i].orderId
      && r.orders[i].sku == result.value.orders[i].sku
      && r.orders[i].status == result.value.orders[i].status
      && r.orders[i].date == result.value.orders[i].date
  {
    if result.None? then CompletedOrRefundedOrdersResponse(Some(false), Some([]), [])
    else CompletedOrRefundedOrdersResponse(result.value.hasNext, Some(OrEmpty(result.value.nextKey)), CompletedOrdersOf(result.value.orders))
  }

  /** CompleteProductGrant: `success` holds only when the SDK answered true (`result ?? false`). */
  function CompleteProductGrant(result: Option<bool>): (success: bool)
    ensures success <==> result == Some(true)
  {
    if result.Some? then result.value else false
  }

  // ---- The purchase callbacks ----

  /** The success event a `success` SDK event queues; a missing icon url becomes `""`. */
  function SuccessEventOf(d: SdkPurchaseData): (e: PurchaseEvent)
    ensures e.error.None? && e.success.Some?
    ensures e.success.value.miniAppIconUrl == Some(OrEmpty(d.miniAppIconUrl))
    ensures e.success.value.orderId == d.orderId && e.success.value.amount == d.amount
    ensures e.success.value.fraction == d.fraction && e.success.value.currency == d.currency
    ensures e.success.value.displayName == d.displayName && e.success.value.displayAmount == d.displayAmount
  {
    PurchaseEvent(
      Some(PurchaseSuccess(d.orderId, d.displayName, d.displayAmount, d.amount, d.currency, d.fraction,
        Some(OrEmpty(d.miniAppIconUrl)))),
      None)
  }

  /**
   * The error event `onError` queues: the code and the message are always set, to the SDK's
   * when it gave one and to UNKNOWN_ERROR and "An unknown error occurred." when it did not
   * (`error?.code ?? ...`: a missing error object is missing both).
   */
  function ErrorEventOf(error: Option<SdkError>): (e: PurchaseEvent)
    ensures e.success.None? && e.error.Some?
    ensures e.error.value.errorCode == Some(if error.Some? && error.value.code.Some? then error.value.code.value else UNKNOWN_ERROR)
    ensures e.error.value.errorMessage == Some(if error.Some? && error.value.message.Some? then error.value.message.value else UNKNOWN_ERROR_MESSAGE)
  {
    var code := if error.Some? then error.value.code else None;
    var message := if error.Some? then error.value.message else None;
    PurchaseEvent(None, Some(PurchaseError(Some(OrElse(code, UNKNOWN_ERROR)), Some(OrElse(message, UNKNOWN_ERROR_MESSAGE)))))
  }

  /** `onEvent`: a `success` event queues its success message; every event type finishes the purchase. */
  function PurchaseCallback(eventType: string, data: SdkPurchaseData): Callback<PurchaseEvent> {
    Callback(if eventType == "success" then [SuccessEventOf(data)] else [], true)
  }

  /** `onError`: one error message, and the purchase finishes. */
  function ErrorCallback(error: Option<SdkError>): Callback<PurchaseEvent> {
    Callback([ErrorEventOf(error)], true)
  }

  // ---- The service ----

  class IapService {
    /** `purchaseOperationStore`. */
    var store: Store<PurchaseEvent>

    constructor()
      ensures store == map[]
    {
      store := map[];
    }

    /** A fresh id (`freshId` stands for `crypto.randomUUID()`) is registered and returned. */
    method CreateOneTimePurchaseOrder(freshId: string) returns (operationId: string)
      requires freshId !in store
      modifies this
      ensures operationId == freshId && store == Started(old(store), freshId)
    {
      operationId := freshId;
      store := Started(store, operationId);
    }

    /** The purchase's `onEvent`. */
    method OnPurchaseEvent(operationId: string, eventType: string, data: SdkPurchaseData)
      modifies this
      ensures store == Recorded(old(store), operationId, PurchaseCallback(eventType, data))
    {
      if operationId !in store {
        return;
      }
      var state := store[operationId];
      if eventType == "success" {
        state := state.(events := state.events + [SuccessEventOf(data)]);
      } else {
        assert state.events + [] == state.events;
      }
      state := state.(isFinished := true);
      store := store[operationId := state];
    }

    /** The purchase's `onError`. */
    method OnPurchaseError(operationId: string, error: Option<SdkError>)
      modifies this
      ensures store == Recorded(old(store), operationId, ErrorCallback(error))
    {
      if operationId !in store {
        return;
      }
      var state := store[operationId];
      state := state.(events := state.events + [ErrorEventOf(error)]);
      state := state.(isFinished := true);
      store := store[operationId := state];
    }

    /** PollPurchaseEvents: the queue and the flag, with the table updated as for every poll. */
    method PollPurchaseEvents(operationId: string) returns (r: PollPurchaseEventsResponse)
      modifies this
      ensures r == PollPurchaseEventsResponse(Answer(old(store), operationId).events, Some(Answer(old(store), operationId).isFinished))
      ensures store == AfterPoll(old(store), operationId)
    {
      if operationId !in store {
        return PollPurchaseEventsResponse([], Some(true));
      }
      var state := store[operationId];
      var eventsToReturn := state.events;
      store := store[operationId := state.(events := [])];
      if state.isFinished {
        store := store - {operationId};
      }
      r := PollPurchaseEventsResponse(eventsToReturn, Some(state.isFinished));
    }
  }

  // ---- Properties ----

  /**
   * One purchase, whatever the SDK does first: a started purchase that gets one callback is
   * finished, and the next poll returns the one queued event (none for a non-success event)
   * and reports the end.
   */
  lemma {:induction false} OneCallbackFinishes(store: Store<PurchaseEvent>, id: string, c: Callback<PurchaseEvent>)
    requires c.finish
    ensures Answer(Recorded(Started(store, id), id, c), id) == PollAnswer(c.event, true)
    ensures id !in AfterPoll(Recorded(Started(store, id), id, c), id)
  {
    assert [] + c.event == c.event;
  }

  /** `onEvent` queues a message exactly for a success, and that message is a success. */
  lemma {:induction false} OnlySuccessQueued(eventType: string, data: SdkPurchaseData)
    ensures PurchaseCallback(eventType, data).finish
    ensures |PurchaseCallback(eventType, data).event| == (if eventType == "success" then 1 else 0)
    ensures forall e :: e in PurchaseCallback(eventType, data).event ==> e.success.Some? && e.error.None?
  {
  }
}
