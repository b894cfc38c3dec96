// The engine-side purchase use case: a catalog of store products fetched over RPC and kept for
// a time-to-live, curated spots looked up in the monetization config and matched against that
// catalog, and the purchase flow, which starts an order and polls it until an event decides it.
// Clock readings, RPC answers and the state of the caller's token are given as inputs.
module IapUseCase {
  import opened Wrappers
  import opened Utf8
  import opened IapMessages
  import opened MonetizationConfig

  /** An `IapProductListItem` as the engine reads it: unset strings read as "". */
  datatype RemoteProduct = RemoteProduct(sku: string, displayName: string, displayAmount: string, iconUrl: string,
                                         description: string)

  datatype PurchaseStatus = Success | Failed | Cancelled

  datatype PurchaseResult = PurchaseResult(sku: string, status: PurchaseStatus, successEvent: Option<PurchaseSuccess>,
                                           errorEvent: Option<PurchaseError>)
  {
    predicate IsSuccess() {
      status == Success
    }
  }

  /** A curated spot together with the catalog product it sells. */
  datatype CuratedProduct = CuratedProduct(spot: CuratedIapSpot, remoteProduct: RemoteProduct)

  /** The exceptions the use case throws to its caller before a purchase flow starts. */
  datatype IapError =
    | SpotIdRequired
    | UnknownCuratedSpot
    | SpotWithoutSku
    | SkuRequired
    | IapServiceNotReady
    | CatalogFetchCancelled

  /** `catalogTtlSeconds` and the initial `_catalogFetchedAt`, in whole seconds. */
  const CATALOG_TTL: int := 120
  const NEVER_FETCHED: int := -999

  const EMPTY_RESULT: PurchaseError :=
    PurchaseError(Some(Literal("EMPTY_RESULT")), Some(Literal("Purchase finished without success event.")))
  const EMPTY_OPERATION_ID: PurchaseError :=
    PurchaseError(Some(Literal("EXCEPTION")), Some(Literal("CreateOneTimePurchaseOrder returned an empty operation_id.")))

  /** The condition under which EnsureCatalogAsync answers from the cache without an RPC. */
  predicate ServedFromCache(forceRefresh: bool, catalog: seq<RemoteProduct>, fetchedAt: int, ttl: int, now: int) {
    !forceRefresh && |catalog| > 0 && now - fetchedAt < ttl
  }

  /** `catalog.FirstOrDefault(p => p.Sku == sku)`. */
  function FindBySku(catalog: seq<RemoteProduct>, sku: string): (r: Option<RemoteProduct>)
    ensures r.None? <==> forall i :: 0 <= i < |catalog| ==> catalog[i].sku != sku
    ensures r.Some? ==> exists i :: (0 <= i < |catalog| && catalog[i] == r.value && r.value.sku == sku
      && forall j :: 0 <= j < i ==> catalog[j].sku != sku)
    decreases |catalog|
  {
    if |catalog| == 0 then None
    else if catalog[0].sku == sku then Some(catalog[0])
    else
      var rest := FindBySku(catalog[1..], sku);
      assert forall i :: 1 <= i < |catalog| ==> catalog[i] == catalog[1..][i - 1];
      if rest.Some? then
        ghost var k :| 0 <= k < |catalog[1..]| && catalog[1..][k] == rest.value && rest.value.sku == sku
          && forall j :: 0 <= j < k ==> catalog[1..][j].sku != sku;
        assert catalog[k + 1] == rest.value && forall j :: 0 <= j < k + 1 ==> catalog[j].sku != sku;
        rest
      else rest
  }

  /** The curated spot a spot id names when it has a product id: none without a config, for an unknown spot or a blank ProductId. */
  function SpotWithSku(config: Option<Config>, spotId: Option<string>): (r: Option<CuratedIapSpot>)
    ensures r.Some? <==> config.Some? && TryGetCuratedSpot(config.value.curatedIapSpots, spotId).Some?
                         && !IsNullOrWhiteSpace(TryGetCuratedSpot(config.value.curatedIapSpots, spotId).value.productId)
    ensures r.Some? ==> r == TryGetCuratedSpot(config.value.curatedIapSpots, spotId)
  {
    if config.None? then None
    else
      var spot := TryGetCuratedSpot(config.value.curatedIapSpots, spotId);
      if spot.Some? && !IsNullOrWhiteSpace(spot.value.productId) then spot else None
  }

  /** What a spot sells in `catalog`: the spot with the first product of its SKU, or none when no product has it. */
  function CuratedIn(spot: CuratedIapSpot, catalog: seq<RemoteProduct>): (r: Option<CuratedProduct>)
    requires spot.productId.Some?
    ensures r.None? <==> forall i :: 0 <= i < |catalog| ==> catalog[i].sku != spot.productId.value
    ensures r.Some? ==> r.value.spot == spot && Some(r.value.remoteProduct) == FindBySku(catalog, spot.productId.value)
  {
    var p := FindBySku(catalog, spot.productId.value);
    if p.Some? then Some(CuratedProduct(spot, p.value)) else None
  }

  // ---- The purchase flow ----

  /** `pollResponse.IsFinished`: an unset flag reads as false. */
  predicate IsFinished(p: PollPurchaseEventsResponse) {
    p.isFinished == Some(true)
  }

  /** An event that decides the purchase: it carries a success or an error. */
  predicate Decisive(e: PurchaseEvent) {
    e.success.Some? || e.error.Some?
  }

  /** The position of the first deciding event of a batch, or its length when there is none. */
  function FirstDecisive(events: seq<PurchaseEvent>): (i: nat)
    ensures i <= |events|
    ensures i < |events| ==> Decisive(events[i])
    ensures forall j :: 0 <= j < i ==> !Decisive(events[j])
    decreases |events|
  {
    if |events| == 0 then 0
    else if Decisive(events[0]) then 0
    else 1 + FirstDecisive(events[1..])
  }

  /**
   * The flow ends once poll k is made: `cancelledAt[k + 1]` is the caller's token as the call
   * for poll k (after the delay, for k > 0) looks at it; a poll ends the flow when it has a
   * deciding event or is finished.
   */
  predicate PurchaseEndsFrom(polls: seq<PollPurchaseEventsResponse>, cancelledAt: seq<bool>, k: nat)
    decreases |polls| - k
  {
    && k + 1 < |cancelledAt|
    && (|| cancelledAt[k + 1]
        || (k < |polls| && (FirstDecisive(polls[k].events) < |polls[k].events| || IsFinished(polls[k])
                            || PurchaseEndsFrom(polls, cancelledAt, k + 1))))
  }

  /** The result of a poll that ends the flow. */
  function Decided(sku: string, p: PollPurchaseEventsResponse): PurchaseResult {
    var i := FirstDecisive(p.events);
    if i < |p.events| then
      if p.events[i].success.Some? then PurchaseResult(sku, Success, p.events[i].success, None)
      else PurchaseResult(sku, Failed, None, p.events[i].error)
    else PurchaseResult(sku, Failed, None, Some(EMPTY_RESULT))
  }

  /** The flow from poll k on. */
  function PurchaseFrom(sku: string, polls: seq<PollPurchaseEventsResponse>, cancelledAt: seq<bool>, k: nat): PurchaseResult
    requires PurchaseEndsFrom(polls, cancelledAt, k)
    decreases |polls| - k
  {
    if cancelledAt[k + 1] then PurchaseResult(sku, Cancelled, None, None)
    else if FirstDecisive(polls[k].events) < |polls[k].events| || IsFinished(polls[k]) then Decided(sku, polls[k])
    else PurchaseFrom(sku, polls, cancelledAt, k + 1)
  }

  /** The flow ends: the create call was cancelled, gave no usable operation id, or the polls end it. */
  predicate PurchaseEnds(operationId: Option<string>, polls: seq<PollPurchaseEventsResponse>, cancelledAt: seq<bool>) {
    |cancelledAt| > 0 && (cancelledAt[0] || IsNullOrWhiteSpace(operationId) || PurchaseEndsFrom(polls, cancelledAt, 0))
  }

  /**
   * RunPurchaseFlowAsync's result: Cancelled when the token stops the create call; Failed with
   * `EXCEPTION` when the order has no operation id; otherwise what the polls decide.
   */
  function Purchase(sku: string, operationId: Option<string>, polls: seq<PollPurchaseEventsResponse>, cancelledAt: seq<bool>):
    PurchaseResult
    requires PurchaseEnds(operationId, polls, cancelledAt)
  {
    if cancelledAt[0] then PurchaseResult(sku, Cancelled, None, None)
    else if IsNullOrWhiteSpace(operationId) then PurchaseResult(sku, Failed, None, Some(EMPTY_OPERATION_ID))
    else PurchaseFrom(sku, polls, cancelledAt, 0)
  }

  class IapUseCasePlayer {
    /** `monetizationConfig`; None when it is not assigned. */
    var config: Option<Config>
    var catalogTtl: int
    /** `_catalog` and `_catalogFetchedAt`. */
    var catalog: seq<RemoteProduct>
    var catalogFetchedAt: int
    /** Every result handed to `PurchaseCompleted`, in order. */
    var completed: seq<PurchaseResult>

    constructor(config: Option<Config>)
      ensures this.config == config && catalogTtl == CATALOG_TTL
      ensures catalog == [] && catalogFetchedAt == NEVER_FETCHED && completed == []
    {
      this.config := config;
      catalogTtl := CATALOG_TTL;
      catalog := [];
      catalogFetchedAt := NEVER_FETCHED;
      completed := [];
    }

    /**
     * EnsureCatalogAsync at clock reading `now`: the cached catalog when it may be served;
     * otherwise, with the service ready and the call not cancelled, the fetched products
     * replace the catalog and the fetch time becomes `now`.
     */
    method EnsureCatalog(forceRefresh: bool, now: int, serviceReady: bool, fetched: seq<RemoteProduct>, cancelled: bool)
      returns (r: Result<seq<RemoteProduct>, IapError>)
      modifies this`catalog, this`catalogFetchedAt
      ensures ServedFromCache(forceRefresh, old(catalog), old(catalogFetchedAt), catalogTtl, now) ==>
        r == Ok(old(catalog)) && unchanged(this)
      ensures !ServedFromCache(forceRefresh, old(catalog), old(catalogFetchedAt), catalogTtl, now) && !serviceReady ==>
        r == Err(IapServiceNotReady) && unchanged(this)
      ensures !ServedFromCache(forceRefresh, old(catalog), old(catalogFetchedAt), catalogTtl, now) && serviceReady && cancelled ==>
        r == Err(CatalogFetchCancelled) && unchanged(this)
      ensures !ServedFromCache(forceRefresh, old(catalog), old(catalogFetchedAt), catalogTtl, now) && serviceReady && !cancelled ==>
        r == Ok(fetched) && catalog == fetched && catalogFetchedAt == now
    {
      var timeSinceFetch := now - catalogFetchedAt;
      if !forceRefresh && |catalog| > 0 && timeSinceFetch < catalogTtl {
        return Ok(catalog);
      }
      if !serviceReady {
        return Err(IapServiceNotReady);
      }
      if cancelled {
        return Err(CatalogFetchCancelled);
      }
      catalog := [];
      catalog := catalog + fetched;
      assert catalog == fetched;
      catalogFetchedAt := now;
      r := Ok(catalog);
    }

    /**
     * GetCuratedProductAsync: a blank spot id is refused; an unknown spot, one without a SKU,
     * or a SKU the catalog does not list gives no product; otherwise the spot and the first
     * catalog product with its SKU.
     */
    method GetCuratedProduct(spotId: Option<string>, now: int, serviceReady: bool, fetched: seq<RemoteProduct>, cancelled: bool)
      returns (r: Result<Option<CuratedProduct>, IapError>)
      modifies this`catalog, this`catalogFetchedAt
      ensures IsNullOrWhiteSpace(spotId) ==> r == Err(SpotIdRequired) && unchanged(this)
      ensures !IsNullOrWhiteSpace(spotId) && SpotWithSku(config, spotId).None? ==> r == Ok(None) && unchanged(this)
      ensures !IsNullOrWhiteSpace(spotId) && SpotWithSku(config, spotId).Some? ==>
        var spot := SpotWithSku(config, spotId).value;
        if ServedFromCache(false, old(catalog), old(catalogFetchedAt), catalogTtl, now) then
          r == Ok(CuratedIn(spot, old(catalog))) && unchanged(this)
        else if !serviceReady then r == Err(IapServiceNotReady) && unchanged(this)
        else if cancelled then r == Err(CatalogFetchCancelled) && unchanged(this)
        else r == Ok(CuratedIn(spot, fetched)) && catalog == fetched && catalogFetchedAt == now
      ensures r.Ok? && r.value.Some? ==> (
        && config.Some?
        && TryGetCuratedSpot(config.value.curatedIapSpots, spotId) == Some(r.value.value.spot)
        && r.value.value.spot.productId == Some(r.value.value.remoteProduct.sku)
        && !IsBlank(r.value.value.remoteProduct.sku)
        && FindBySku(catalog, r.value.value.remoteProduct.sku) == Some(r.value.value.remoteProduct))
      ensures (r.Ok? && r.value.None? && !IsNullOrWhiteSpace(spotId) && config.Some?
        && TryGetCuratedSpot(config.value.curatedIapSpots, spotId).Some?) ==> (
        var spot := TryGetCuratedSpot(config.value.curatedIapSpots, spotId).value;
        IsNullOrWhiteSpace(spot.productId) || FindBySku(catalog, spot.productId.value).None?)
    {
      if IsNullOrWhiteSpace(spotId) {
        return Err(SpotIdRequired);
      }
      if config.None? {
        return Ok(None);
      }
      var spot := TryGetCuratedSpot(config.value.curatedIapSpots, spotId);
      if spot.None? || IsNullOrWhiteSpace(spot.value.productId) {
        return Ok(None);
      }
      var got := EnsureCatalog(false, now, serviceReady, fetched, cancelled);
      if got.Err? {
        return Err(got.error);
      }
      var remoteProduct := FindBySku(got.value, spot.value.productId.value);
      if remoteProduct.None? {
        return Ok(None);
      }
      r := Ok(Some(CuratedProduct(spot.value, remoteProduct.value)));
    }

    /** `CompletePurchase`: the result is handed to the observers and returned. */
    method CompletePurchase(result: PurchaseResult) returns (r: PurchaseResult)
      modifies this`completed
      ensures r == result && completed == old(completed) + [result]
    {
      completed := completed + [result];
      r := result;
    }

    /**
     * RunPurchaseFlowAsync: create the order, then poll it; in each batch the first event with
     * a success or an error decides, a finished batch without one fails with EMPTY_RESULT, and
     * otherwise the flow waits and polls again. The token stops the flow at any call as
     * Cancelled. Whatever the exit, the result is completed exactly once.
     */
    method RunPurchaseFlow(sku: string, operationId: Option<string>, polls: seq<PollPurchaseEventsResponse>,
                           cancelledAt: seq<bool>)
      returns (result: PurchaseResult)
      requires PurchaseEnds(operationId, polls, cancelledAt)
      modifies this`completed
      ensures result == Purchase(sku, operationId, polls, cancelledAt)
      ensures completed == old(completed) + [result]
    {
      if cancelledAt[0] {
        result := CompletePurchase(PurchaseResult(sku, Cancelled, None, None));
        return;
      }
      if IsNullOrWhiteSpace(operationId) {
        result := CompletePurchase(PurchaseResult(sku, Failed, None, Some(EMPTY_OPERATION_ID)));
        return;
      }
      var k := 0;
      while true
        invariant PurchaseEndsFrom(polls, cancelledAt, k)
        invariant Purchase(sku, operationId, polls, cancelledAt) == PurchaseFrom(sku, polls, cancelledAt, k)
        invariant completed == old(completed)
        decreases |polls| - k
      {
        if cancelledAt[k + 1] {
          result := CompletePurchase(PurchaseResult(sku, Cancelled, None, None));
          return;
        }
        var pollResponse := polls[k];
        var j := 0;
        while j < |pollResponse.events|
          invariant j <= FirstDecisive(pollResponse.events)
        {
          var ev := pollResponse.events[j];
          if ev.success.Some? {
            result := CompletePurchase(PurchaseResult(sku, Success, ev.success, None));
            return;
          }
          if ev.error.Some? {
            result := CompletePurchase(PurchaseResult(sku, Failed, None, ev.error));
            return;
          }
          j := j + 1;
        }
        if IsFinished(pollResponse) {
          result := CompletePurchase(PurchaseResult(sku, Failed, None, Some(EMPTY_RESULT)));
          return;
        }
        k := k + 1;
      }
    }

    /**
     * PurchaseSkuAsync: a blank SKU and a missing service are refused and change nothing;
     * otherwise the purchase flow runs and its result is completed once.
     */
    method PurchaseSku(sku: Option<string>, serviceReady: bool, operationId: Option<string>,
                       polls: seq<PollPurchaseEventsResponse>, cancelledAt: seq<bool>)
      returns (r: Result<PurchaseResult, IapError>)
      requires PurchaseEnds(operationId, polls, cancelledAt)
      modifies this`completed
      ensures IsNullOrWhiteSpace(sku) ==> r == Err(SkuRequired) && unchanged(this)
      ensures !IsNullOrWhiteSpace(sku) && !serviceReady ==> r == Err(IapServiceNotReady) && unchanged(this)
      ensures !IsNullOrWhiteSpace(sku) && serviceReady ==> (
        && r == Ok(Purchase(sku.value, operationId, polls, cancelledAt))
        && completed == old(completed) + [r.value])
    {
      if IsNullOrWhiteSpace(sku) {
        return Err(SkuRequired);
      }
      if !serviceReady {
        return Err(IapServiceNotReady);
      }
      var result := RunPurchaseFlow(sku.value, operationId, polls, cancelledAt);
      r := Ok(result);
    }

    /**
     * PurchaseCuratedSpotAsync: an unknown spot and a spot without a SKU are refused;
     * otherwise the spot's SKU is purchased.
     */
    method PurchaseCuratedSpot(spotId: Option<string>, serviceReady: bool, operationId: Option<string>,
                               polls: seq<PollPurchaseEventsResponse>, cancelledAt: seq<bool>)
      returns (r: Result<PurchaseResult, IapError>)
      requires PurchaseEnds(operationId, polls, cancelledAt)
      modifies this`completed
      ensures config.None? || TryGetCuratedSpot(config.value.curatedIapSpots, spotId).None? ==>
        r == Err(UnknownCuratedSpot) && unchanged(this)
      ensures (config.Some? && TryGetCuratedSpot(config.value.curatedIapSpots, spotId).Some?) ==> (
        var spot := TryGetCuratedSpot(config.value.curatedIapSpots, spotId).value;
        && (IsNullOrWhiteSpace(spot.productId) ==> r == Err(SpotWithoutSku) && unchanged(this))
        && (!IsNullOrWhiteSpace(spot.productId) && !serviceReady ==> r == Err(IapServiceNotReady) && unchanged(this))
        && (!IsNullOrWhiteSpace(spot.productId) && serviceReady ==>
              r == Ok(Purchase(spot.productId.value, operationId, polls, cancelledAt))
              && completed == old(completed) + [r.value]))
    {
      if config.None? {
        return Err(UnknownCuratedSpot);
      }
      var spot := TryGetCuratedSpot(config.value.curatedIapSpots, spotId);
      if spot.None? {
        return Err(UnknownCuratedSpot);
      }
      if IsNullOrWhiteSpace(spot.value.productId) {
        return Err(SpotWithoutSku);
      }
      r := PurchaseSku(spot.value.productId, serviceReady, operationId, polls, cancelledAt);
    }
  }

  // ---- Properties ----

  /**
   * Only a Success result carries a success event and only a Failed one an error event; a
   * Cancelled result carries neither.
   */
  lemma {:induction false} PurchaseResultShape(sku: string, polls: seq<PollPurchaseEventsResponse>, cancelledAt: seq<bool>, k: nat)
    requires PurchaseEndsFrom(polls, cancelledAt, k)
    ensures var r := PurchaseFrom(sku, polls, cancelledAt, k);
      && r.sku == sku
      && (r.status == Success <==> r.successEvent.Some?)
      && (r.status == Failed <==> r.errorEvent.Some?)
      && !(r.successEvent.Some? && r.errorEvent.Some?)
    decreases |polls| - k
  {
    if !cancelledAt[k + 1] && !(FirstDecisive(polls[k].events) < |polls[k].events| || IsFinished(polls[k])) {
      PurchaseResultShape(sku, polls, cancelledAt, k + 1);
    }
  }

  /**
   * Polls k to j - 1 were made without a cancelled call, none of them finished or had a
   * deciding event, and the call for poll j was not cancelled either.
   */
  predicate QuietUntil(polls: seq<PollPurchaseEventsResponse>, cancelledAt: seq<bool>, k: nat, j: int) {
    && k <= j < |polls| && j + 1 < |cancelledAt|
    && (forall n :: k < n <= j + 1 ==> !cancelledAt[n])
    && (forall m :: k <= m < j ==> FirstDecisive(polls[m].events) == |polls[m].events| && !IsFinished(polls[m]))
  }

  /**
   * A result that is not Cancelled is decided by some poll j, all polls before which went by
   * quietly: it is j's first deciding event, or EMPTY_RESULT when j is finished without one.
   */
  lemma {:induction false} DecidedByFirstEvent(sku: string, polls: seq<PollPurchaseEventsResponse>, cancelledAt: seq<bool>, k: nat)
    requires PurchaseEndsFrom(polls, cancelledAt, k)
    ensures PurchaseFrom(sku, polls, cancelledAt, k).status != Cancelled ==>
      exists j :: QuietUntil(polls, cancelledAt, k, j) && PurchaseFrom(sku, polls, cancelledAt, k) == Decided(sku, polls[j])
    decreases |polls| - k
  {
    var r := PurchaseFrom(sku, polls, cancelledAt, k);
    if r.status != Cancelled {
      if FirstDecisive(polls[k].events) < |polls[k].events| || IsFinished(polls[k]) {
        assert QuietUntil(polls, cancelledAt, k, k);
      } else {
        DecidedByFirstEvent(sku, polls, cancelledAt, k + 1);
        var j :| QuietUntil(polls, cancelledAt, k + 1, j) && PurchaseFrom(sku, polls, cancelledAt, k + 1) == Decided(sku, polls[j]);
        assert QuietUntil(polls, cancelledAt, k, j);
      }
    }
  }

  /**
   * A success result's event is the first deciding event of its batch, and that event
   * carries a success; a finished batch with no deciding event fails with EMPTY_RESULT.
   */
  lemma {:induction false} DecidedOutcomes(sku: string, p: PollPurchaseEventsResponse)
    ensures var r := Decided(sku, p);
      var i := FirstDecisive(p.events);
      && (r.status == Success ==> i < |p.events| && p.events[i].success.Some? && r.successEvent == p.events[i].success)
      && (r.status == Failed && i < |p.events| ==> p.events[i].success.None? && r.errorEvent == p.events[i].error)
      && (i == |p.events| ==> r == PurchaseResult(sku, Failed, None, Some(EMPTY_RESULT)))
  {
  }

  /** A purchase whose order came back without an operation id fails with EXCEPTION, without polling. */
  lemma {:induction false} EmptyOperationIdFails(sku: string, operationId: Option<string>, polls: seq<PollPurchaseEventsResponse>,
                                                 cancelledAt: seq<bool>)
    requires |cancelledAt| > 0 && !cancelledAt[0] && IsNullOrWhiteSpace(operationId)
    ensures PurchaseEnds(operationId, polls, cancelledAt)
    ensures Purchase(sku, operationId, polls, cancelledAt).status == Failed
    ensures Purchase(sku, operationId, polls, cancelledAt).errorEvent.value.errorCode == Some(Literal("EXCEPTION"))
  {
  }

  /**
   * The first fetch always makes the RPC, and after a fetch of a non-empty catalog at time t
   * the catalog is served from the cache exactly until t + ttl, unless a refresh is forced.
   */
  lemma {:induction false} CatalogServedUntilTtl(catalog: seq<RemoteProduct>, t: int, ttl: int, now: int, forceRefresh: bool)
    ensures !ServedFromCache(forceRefresh, [], NEVER_FETCHED, ttl, now)
    ensures |catalog| > 0 ==> (ServedFromCache(forceRefresh, catalog, t, ttl, now) <==> !forceRefresh && now < t + ttl)
  {
  }
}
