// The host side of the ad service: LoadAd and ShowAd start an SDK operation and register
// it in the operation table; the SDK's callbacks queue event messages in it; the two
// Poll methods hand the queue to the engine. One table serves both kinds of operation.
module AdServiceImpl {
  import opened Wrappers
  import opened Utf8
  import opened AdMessages
  import opened Operations

  /**
   * A queued event, as the callback builds it: which kind it is (as the load or show
   * response message names its kinds), and the data the `loaded` and `userEarnedReward`
   * kinds carry.
   */
  datatype HostAdEvent =
    | LoadEvent(load: LoadAdResponse, loadedData: Option<ResponseInfo>)
    | ShowEvent(show: ShowAdResponse, reward: Option<Reward>)

  /** `{ unit_type: event.data.unitType, unit_amount: event.data.unitAmount }`. */
  datatype Reward = Reward(unitType: JsString, unitAmount: int)

  const NO_LOAD_EVENT: LoadAdResponse := LoadAdResponse(None, None, None, None, None, None)
  const NO_SHOW_EVENT: ShowAdResponse := ShowAdResponse(None, None, None, None, None, None, None)

  /** The SDK event types a load recognises, in the order of the message's fields 1..6. */
  const LOAD_EVENT_TYPES: seq<string> := ["loaded", "clicked", "dismissed", "failedToShow", "impression", "show"]

  /** The SDK event types a show recognises, in the order of the message's fields 1..7. */
  const SHOW_EVENT_TYPES: seq<string> :=
    ["requested", "clicked", "dismissed", "failedToShow", "impression", "show", "userEarnedReward"]

  /**
   * The load callback's `switch (event.type)`: a recognised type becomes a message with that
   * kind alone set; any other type builds no event.
   */
  function LoadAdEventFor(eventType: string): (r: Option<LoadAdResponse>)
    ensures r.Some? <==> eventType in LOAD_EVENT_TYPES
    ensures forall k :: 1 <= k <= |LOAD_EVENT_TYPES| && LOAD_EVENT_TYPES[k - 1] == eventType
              ==> r.Some? && LoadAdKinds(r.value) == {k}
  {
    var e := Some(AdEvent);
    var r :=
      if eventType == "loaded" then Some(NO_LOAD_EVENT.(loaded := e))
      else if eventType == "clicked" then Some(NO_LOAD_EVENT.(clicked := e))
      else if eventType == "impression" then Some(NO_LOAD_EVENT.(impression := e))
      else if eventType == "show" then Some(NO_LOAD_EVENT.(show := e))
      else if eventType == "dismissed" then Some(NO_LOAD_EVENT.(dismissed := e))
      else if eventType == "failedToShow" then Some(NO_LOAD_EVENT.(failedToShow := e))
      else None;
    if r.Some? then
      var k := if eventType == "loaded" then 1 else if eventType == "clicked" then 2
        else if eventType == "dismissed" then 3 else if eventType == "failedToShow" then 4
        else if eventType == "impression" then 5 else 6;
      assert LOAD_EVENT_TYPES[k - 1] == eventType;
      KindsOfSingle(LoadAdResponseSlots(r.value), k);
      r
    else
      r
  }

  /** The show callback's `switch (event.type)`. */
  function ShowAdEventFor(eventType: string): (r: Option<ShowAdResponse>)
    ensures r.Some? <==> eventType in SHOW_EVENT_TYPES
    ensures forall k :: 1 <= k <= |SHOW_EVENT_TYPES| && SHOW_EVENT_TYPES[k - 1] == eventType
              ==> r.Some? && ShowAdKinds(r.value) == {k}
  {
    var e := Some(AdEvent);
    var r :=
      if eventType == "requested" then Some(NO_SHOW_EVENT.(requested := e))
      else if eventType == "clicked" then Some(NO_SHOW_EVENT.(clicked := e))
      else if eventType == "impression" then Some(NO_SHOW_EVENT.(impression := e))
      else if eventType == "show" then Some(NO_SHOW_EVENT.(show := e))
      else if eventType == "userEarnedReward" then Some(NO_SHOW_EVENT.(userEarnedReward := e))
      else if eventType == "dismissed" then Some(NO_SHOW_EVENT.(dismissed := e))
      else if eventType == "failedToShow" then Some(NO_SHOW_EVENT.(failedToShow := e))
      else None;
    if r.Some? then
      var k := if eventType == "requested" then 1 else if eventType == "clicked" then 2
        else if eventType == "dismissed" then 3 else if eventType == "failedToShow" then 4
        else if eventType == "impression" then 5 else if eventType == "show" then 6 else 7;
      assert SHOW_EVENT_TYPES[k - 1] == eventType;
      KindsOfSingle(ShowAdResponseSlots(r.value), k);
      r
    else
      r
  }

  /** `state.isFinished = true` in the `dismissed` and `failedToShow` cases of both callbacks. */
  predicate Finishes(eventType: string) {
    eventType == "dismissed" || eventType == "failedToShow"
  }

  /** What one SDK load event does to its operation; `data` is read only by a `loaded` event. */
  function LoadCallback(eventType: string, data: SdkLoadedData): Callback<HostAdEvent> {
    var m := LoadAdEventFor(eventType);
    var loadedData := if eventType == "loaded" then Some(LoadedResponseInfo(data)) else None;
    Callback(if m.Some? then [LoadEvent(m.value, loadedData)] else [], Finishes(eventType))
  }

  /** What one SDK show event does to its operation; `reward` is read only by a `userEarnedReward` event. */
  function ShowCallback(eventType: string, reward: Reward): Callback<HostAdEvent> {
    var m := ShowAdEventFor(eventType);
    var earned := if eventType == "userEarnedReward" then Some(reward) else None;
    Callback(if m.Some? then [ShowEvent(m.value, earned)] else [], Finishes(eventType))
  }

  /** `onError`: `state.isFinished = true` and no event. */
  const ERROR_CALLBACK: Callback<HostAdEvent> := Callback([], true)

  // ---- The loaded event's data ----

  /** An entry of the SDK's `adNetworkInfoArray` (or its `loadedAdNetworkInfo`). */
  datatype SdkAdNetworkInfo = SdkAdNetworkInfo(
    adSourceId: Option<JsString>,
    adSourceName: Option<JsString>,
    adSourceInstanceId: Option<JsString>,
    adSourceInstanceName: Option<JsString>,
    adNetworkClassName: Option<JsString>)

  /** `event.data` of a `loaded` event. */
  datatype SdkLoadedData = SdkLoadedData(
    responseId: Option<JsString>,
    loadedAdNetworkInfo: Option<SdkAdNetworkInfo>,
    adNetworkInfoArray: seq<SdkAdNetworkInfo>)

  /** `x ?? ""`. */
  function OrEmpty(o: Option<JsString>): JsString {
    if o.Some? then o.value else []
  }

  /** The four source fields are copied as they are; a missing class name becomes `""`. */
  function NetworkInfoOf(i: SdkAdNetworkInfo): (r: AdNetworkResponseInfo)
    ensures r.adNetworkClassName.Some? && r.adNetworkClassName.value == OrEmpty(i.adNetworkClassName)
    ensures r.adSourceId == i.adSourceId && r.adSourceName == i.adSourceName
    ensures r.adSourceInstanceId == i.adSourceInstanceId && r.adSourceInstanceName == i.adSourceInstanceName
  {
    AdNetworkResponseInfo(i.adSourceId, i.adSourceName, i.adSourceInstanceId, i.adSourceInstanceName,
      Some(OrEmpty(i.adNetworkClassName)))
  }

  function NetworkInfosOf(xs: seq<SdkAdNetworkInfo>): (r: seq<AdNetworkResponseInfo>)
    ensures |r| == |xs| && forall i :: 0 <= i < |xs| ==> r[i] == NetworkInfoOf(xs[i])
    decreases |xs|
  {
    if |xs| == 0 then [] else [NetworkInfoOf(xs[0])] + NetworkInfosOf(xs[1..])
  }

  /**
   * The ResponseInfo a `loaded` event carries: the response id is always set (`?? ""`), the
   * loaded network info is set iff the SDK gave one, and the array keeps the SDK's order.
   */
  function LoadedResponseInfo(data: SdkLoadedData): (r: ResponseInfo)
    ensures r.responseId == Some(OrEmpty(data.responseId))
    ensures r.loadedAdNetworkInfo.Some? <==> data.loadedAdNetworkInfo.Some?
    ensures r.loadedAdNetworkInfo.Some? ==> r.loadedAdNetworkInfo.value == NetworkInfoOf(data.loadedAdNetworkInfo.value)
    ensures |r.adNetworkInfoArray| == |data.adNetworkInfoArray|
    ensures forall i :: 0 <= i < |r.adNetworkInfoArray| ==> r.adNetworkInfoArray[i] == NetworkInfoOf(data.adNetworkInfoArray[i])
  {
    ResponseInfo(
      Some(OrEmpty(data.responseId)),
      if data.loadedAdNetworkInfo.Some? then Some(NetworkInfoOf(data.loadedAdNetworkInfo.value)) else None,
      NetworkInfosOf(data.adNetworkInfoArray))
  }

  // ---- The service ----

  class AdService {
    /** `adOperationStore`. */
    var store: Store<HostAdEvent>

    /** An operation id is never empty: `""` is the answer of a start that did not happen. */
    predicate Valid()
      reads this
    {
      "" !in store
    }

    constructor()
      ensures store == map[] && Valid()
    {
      store := map[];
    }

    /**
     * LoadAd: an unsupported SDK entry point answers `operation_id ""` and registers nothing;
     * otherwise a fresh id is registered as `{ events: [], isFinished: false }` and returned.
     * `freshId` stands for `crypto.randomUUID()`.
     */
    method LoadAd(supported: bool, freshId: string) returns (operationId: string)
      requires Valid() && freshId != "" && freshId !in store
      modifies this
      ensures Valid()
      ensures !supported ==> operationId == "" && store == old(store)
      ensures supported ==> operationId == freshId && store == Started(old(store), freshId)
    {
      if !supported {
        return "";
      }
      operationId := freshId;
      store := Started(store, operationId);
    }

    /** ShowAd: the same start, through the show entry point. */
    method ShowAd(supported: bool, freshId: string) returns (operationId: string)
      requires Valid() && freshId != "" && freshId !in store
      modifies this
      ensures Valid()
      ensures !supported ==> operationId == "" && store == old(store)
      ensures supported ==> operationId == freshId && store == Started(old(store), freshId)
    {
      if !supported {
        return "";
      }
      operationId := freshId;
      store := Started(store, operationId);
    }

    /** The load operation's `onEvent`. */
    method OnLoadAdEvent(operationId: string, eventType: string, data: SdkLoadedData)
      requires Valid()
      modifies this
      ensures Valid() && store == Recorded(old(store), operationId, LoadCallback(eventType, data))
    {
      if operationId !in store {
        return;
      }
      var state := store[operationId];
      var newEvent := LoadAdEventFor(eventType);
      if eventType == "dismissed" || eventType == "failedToShow" {
        state := state.(isFinished := true);
      }
      assert state.events + [] == state.events;
      if newEvent.Some? {
        var loadedData := if eventType == "loaded" then Some(LoadedResponseInfo(data)) else None;
        state := state.(events := state.events + [LoadEvent(newEvent.value, loadedData)]);
      }
      store := store[operationId := state];
    }

    /** The show operation's `onEvent`. */
    method OnShowAdEvent(operationId: string, eventType: string, reward: Reward)
      requires Valid()
      modifies this
      ensures Valid() && store == Recorded(old(store), operationId, ShowCallback(eventType, reward))
    {
      if operationId !in store {
        return;
      }
      var state := store[operationId];
      var newEvent := ShowAdEventFor(eventType);
      if eventType == "dismissed" || eventType == "failedToShow" {
        state := state.(isFinished := true);
      }
      assert state.events + [] == state.events;
      if newEvent.Some? {
        var earned := if eventType == "userEarnedReward" then Some(reward) else None;
        state := state.(events := state.events + [ShowEvent(newEvent.value, earned)]);
      }
      store := store[operationId := state];
    }

    /** Either operation's `onError`. */
    method OnAdError(operationId: string)
      requires Valid()
      modifies this
      ensures Valid() && store == Recorded(old(store), operationId, ERROR_CALLBACK)
    {
      if operationId in store {
        assert store[operationId].events + [] == store[operationId].events;
        store := store[operationId := store[operationId].(isFinished := true)];
      }
    }

    /** PollLoadAdEvents and PollShowAdEvents, which have the same body. */
    method PollEvents(operationId: string) returns (r: PollAnswer<HostAdEvent>)
      requires Valid()
      modifies this
      ensures Valid() && r == Answer(old(store), operationId) && store == AfterPoll(old(store), operationId)
    {
      if operationId !in store {
        return PollAnswer([], true);
      }
      var state := store[operationId];
      var eventsToReturn := state.events;
      store := store[operationId := state.(events := [])];
      if state.isFinished {
        store := store - {operationId};
      }
      r := PollAnswer(eventsToReturn, state.isFinished);
    }
  }

  // ---- Properties ----

  /** An event finishes its operation iff it is queued as a dismissed or failed-to-show message. */
  lemma {:induction false} LoadFinishesOnTerminalKind(eventType: string)
    ensures Finishes(eventType) <==>
      LoadAdEventFor(eventType).Some? && (LoadAdEventFor(eventType).value.dismissed.Some? || LoadAdEventFor(eventType).value.failedToShow.Some?)
  {
    if Finishes(eventType) {
      assert LOAD_EVENT_TYPES[2] == "dismissed" && LOAD_EVENT_TYPES[3] == "failedToShow";
    }
  }

  lemma {:induction false} ShowFinishesOnTerminalKind(eventType: string)
    ensures Finishes(eventType) <==>
      ShowAdEventFor(eventType).Some? && (ShowAdEventFor(eventType).value.dismissed.Some? || ShowAdEventFor(eventType).value.failedToShow.Some?)
  {
    if Finishes(eventType) {
      assert SHOW_EVENT_TYPES[2] == "dismissed" && SHOW_EVENT_TYPES[3] == "failedToShow";
    }
  }

  /** A load operation's `requested` and `userEarnedReward` events are not recognised: nothing is queued. */
  lemma {:induction false} LoadIgnoresShowOnlyTypes(data: SdkLoadedData)
    ensures LoadCallback("requested", data) == Callback([], false)
    ensures LoadCallback("userEarnedReward", data) == Callback([], false)
  {
    assert "requested" !in LOAD_EVENT_TYPES;
    assert "userEarnedReward" !in LOAD_EVENT_TYPES;
  }

  /**
   * A queued load event, whose payload message has no fields in this model, crosses the wire
   * as its kind's tag and a zero length, and is decoded with its kind alone set. (In the
   * service a `loaded` payload carries a ResponseInfo, which this lemma does not cover.)
   */
  lemma {:induction false} QueuedLoadEventOnTheWire(eventType: string, k: nat)
    requires 1 <= k <= |LOAD_EVENT_TYPES| && LOAD_EVENT_TYPES[k - 1] == eventType
    ensures EncodeLoadAdResponse(LoadAdEventFor(eventType).value) == [k * 8 + 2, 0]
    ensures DecodeLoadAdResponse(EncodeLoadAdResponse(LoadAdEventFor(eventType).value)).Ok?
    ensures LoadAdKinds(DecodeLoadAdResponse(EncodeLoadAdResponse(LoadAdEventFor(eventType).value)).value) == {k}
  {
    LoadAdSingleKind(LoadAdEventFor(eventType).value, k);
  }

  /**
   * The same for a queued show event; in the service a `userEarnedReward` payload carries the
   * reward's unit type and amount, which this lemma does not cover.
   */
  lemma {:induction false} QueuedShowEventOnTheWire(eventType: string, k: nat)
    requires 1 <= k <= |SHOW_EVENT_TYPES| && SHOW_EVENT_TYPES[k - 1] == eventType
    ensures EncodeShowAdResponse(ShowAdEventFor(eventType).value) == [k * 8 + 2, 0]
    ensures DecodeShowAdResponse(EncodeShowAdResponse(ShowAdEventFor(eventType).value)).Ok?
    ensures ShowAdKinds(DecodeShowAdResponse(EncodeShowAdResponse(ShowAdEventFor(eventType).value)).value) == {k}
  {
    ShowAdSingleKind(ShowAdEventFor(eventType).value, k);
  }
}
