// The web side of the legacy "AIT_OpenURL" event: it parses "url|requestId", asks the SDK to
// open the url, and answers Unity with one success or one failure callback.
module OpenUrlWeb {
  import opened Wrappers
  import opened Payloads

  const EVENT_NAME: string := "AIT_OpenURL"

  /** The game object and the two methods `sendMessage` calls back into. */
  datatype CallbackConfig = CallbackConfig(gameObjectName: string, successMethod: string, failureMethod: string)

  const DEFAULT_CALLBACK_CONFIG: CallbackConfig := CallbackConfig("AitSdkBridge", "OnSuccess", "OnFailure")

  /** One `context.sendMessage(gameObjectName, methodName, parameter)` call. */
  datatype SentMessage = SentMessage(gameObjectName: string, methodName: string, parameter: string)

  /** What one run of the handler does: the url it asks the SDK to open, and what it sends back. */
  datatype HandlerRun = HandlerRun(openedUrl: Option<string>, sent: seq<SentMessage>)

  /**
   * The parse as written: `String(payload).split('|')` with url = parts[0] and
   * requestId = parts[1], rejected when either is empty or missing.
   */
  function ParseAsWritten(payload: string): (r: Option<(string, string)>)
    ensures r.Some? ==> r.value.0 != "" && r.value.1 != "" && SEP !in r.value.0 && SEP !in r.value.1
  {
    var parts := SplitAll(payload);
    if parts[0] != "" && |parts| >= 2 && parts[1] != "" then Some((parts[0], parts[1])) else None
  }

  /**
   * The parse the payload format calls for: the request id is the text after the last
   * separator and the url all of the text before it, so a url may itself hold separators.
   */
  function ParsePayload(payload: string): (r: Option<(string, string)>)
    ensures r.Some? ==> (
      && r.value.0 != "" && r.value.1 != "" && SEP !in r.value.1
      && payload == Join(r.value.0, r.value.1))
    ensures r.None? <==> SplitLast(payload).None? || SplitLast(payload).value.0 == "" || SplitLast(payload).value.1 == ""
  {
    var split := SplitLast(payload);
    if split.Some? && split.value.0 != "" && split.value.1 != "" then split else None
  }

  /**
   * What the handler does once the payload is parsed: nothing without a url and a request
   * id; otherwise the SDK opens the url and Unity gets `successMethod(requestId)` when that
   * resolves, or `failureMethod("requestId|errorMessage")` when it throws (`sdkError` is its message).
   */
  function Answer(parsed: Option<(string, string)>, sdkError: Option<string>, config: CallbackConfig): (r: HandlerRun)
    ensures |r.sent| <= 1
    ensures r.openedUrl.Some? <==> |r.sent| == 1
    ensures r.sent == [] <==> parsed.None?
    ensures forall k :: 0 <= k < |r.sent| ==> r.sent[k].gameObjectName == config.gameObjectName
    ensures |r.sent| == 1 ==>
      var (url, id) := parsed.value;
      && r.openedUrl == Some(url)
      && (sdkError.None? ==> r.sent[0].methodName == config.successMethod && r.sent[0].parameter == id)
      && (sdkError.Some? ==> r.sent[0].methodName == config.failureMethod && r.sent[0].parameter == Join(id, sdkError.value))
  {
    if parsed.None? then HandlerRun(None, [])
    else
      var (url, id) := parsed.value;
      if sdkError.None? then HandlerRun(Some(url), [SentMessage(config.gameObjectName, config.successMethod, id)])
      else HandlerRun(Some(url), [SentMessage(config.gameObjectName, config.failureMethod, Join(id, sdkError.value))])
  }

  /**
   * The handler with the corrected parse: a payload without a url or a request id is logged
   * and dropped; otherwise exactly one answer goes back, under the id after the last separator.
   */
  function Handle(payload: string, sdkError: Option<string>, config: CallbackConfig): (r: HandlerRun)
    ensures |r.sent| <= 1
    ensures r.openedUrl.Some? <==> |r.sent| == 1
    ensures r.sent == [] <==> ParsePayload(payload).None?
    ensures forall k :: 0 <= k < |r.sent| ==> r.sent[k].gameObjectName == config.gameObjectName
    ensures |r.sent| == 1 ==>
      var (url, id) := ParsePayload(payload).value;
      && r.openedUrl == Some(url)
      && (sdkError.None? ==> r.sent[0].methodName == config.successMethod && r.sent[0].parameter == id)
      && (sdkError.Some? ==> r.sent[0].methodName == config.failureMethod && r.sent[0].parameter == Join(id, sdkError.value))
  {
    Answer(ParsePayload(payload), sdkError, config)
  }

  /** The handler as written: the same answers, from the parse at every separator. */
  function HandleAsWritten(payload: string, sdkError: Option<string>, config: CallbackConfig): (r: HandlerRun)
    ensures |r.sent| <= 1
    ensures r.sent == [] <==> ParseAsWritten(payload).None?
    ensures |r.sent| == 1 ==>
      var (url, id) := ParseAsWritten(payload).value;
      && r.openedUrl == Some(url)
      && r.sent[0].parameter == if sdkError.None? then id else Join(id, sdkError.value)
  {
    Answer(ParseAsWritten(payload), sdkError, config)
  }

  // ---- Properties ----

  /** A payload built as "url|requestId" parses back to its url and id, whatever the url holds. */
  lemma {:induction false} ParsePayloadJoin(url: string, id: string)
    requires SEP !in id
    ensures ParsePayload(Join(url, id)) == (if url != "" && id != "" then Some((url, id)) else None)
  {
    SplitLastJoin(Join(url, id), url, id);
  }

  /** As written, "url|requestId" parses back to (url, requestId) exactly when the url holds no separator. */
  lemma {:induction false} ParseAsWrittenJoin(url: string, id: string)
    requires url != "" && id != "" && SEP !in id
    ensures ParseAsWritten(Join(url, id)) == Some((url, id)) <==> SEP !in url
  {
    if SEP !in url {
      assert JoinAll([url, id]) == Join(url, id) by {
        assert [url, id][1..] == [id];
      }
      SplitAllJoinAll([url, id]);
    }
  }

  /** Both handlers answer the same when neither the url nor the request id holds a separator. */
  lemma {:induction false} HandlersAgree(url: string, id: string, sdkError: Option<string>, config: CallbackConfig)
    requires SEP !in url && SEP !in id
    ensures HandleAsWritten(Join(url, id), sdkError, config) == Handle(Join(url, id), sdkError, config)
  {
    assert JoinAll([url, id]) == Join(url, id) by {
      assert [url, id][1..] == [id];
    }
    SplitAllJoinAll([url, id]);
    ParsePayloadJoin(url, id);
  }

  /**
   * As written, the url "a|b" sent with request id "c" opens "a" and answers Unity under
   * the id "b", so request "c" is never answered; the corrected handler answers "c".
   */
  lemma {:induction false} AsWrittenAnswersWrongId(sdkError: Option<string>, config: CallbackConfig)
    ensures HandleAsWritten(Join("a|b", "c"), sdkError, config).openedUrl == Some("a")
    ensures HandleAsWritten(Join("a|b", "c"), sdkError, config).sent[0].parameter
            == if sdkError.None? then "b" else Join("b", sdkError.value)
    ensures Handle(Join("a|b", "c"), sdkError, config).openedUrl == Some("a|b")
    ensures Handle(Join("a|b", "c"), sdkError, config).sent[0].parameter
            == if sdkError.None? then "c" else Join("c", sdkError.value)
  {
    ParseAsWrittenSplitsUrl();
    ParsePayloadJoin("a|b", "c");
  }

  /** A url with a separator, such as "a|b", makes its second part the request id. */
  lemma {:induction false} ParseAsWrittenSplitsUrl()
    ensures ParseAsWritten(Join("a|b", "c")) == Some(("a", "b"))
  {
    assert JoinAll(["a", "b", "c"]) == Join("a|b", "c") by {
      assert ["a", "b", "c"][1..] == ["b", "c"];
      assert ["b", "c"][1..] == ["c"];
    }
    SplitAllJoinAll(["a", "b", "c"]);
  }
}

// The Unity side of "AIT_OpenURL": it stores each request with its callbacks under a fresh
// request id, dispatches "url|requestId" through the bridge and, when the answer comes back,
// calls the matching callback once.
module OpenUrl {
  import opened Wrappers
  import opened Payloads
  import opened SdkBridge
  import Web = OpenUrlWeb

  const EVENT_NAME: string := "AIT_OpenURL"
  const EMPTY_URL: string := "URL cannot be null or empty"

  /** A stored request: the url and the callbacks, each named by an identity, or absent. */
  datatype OpenUrlRequest = OpenUrlRequest(url: string, onSuccess: Option<nat>, onFailure: Option<nat>)

  /** One call of a user callback: `onSuccess()` or `onFailure(message)`. */
  datatype Invocation = SuccessInvoked(callback: nat) | FailureInvoked(callback: nat, message: string)

  class OpenUrlService {
    /** This object as the bridge sees it. */
    const self: Service
    var bridge: AitSdkBridge?
    var requests: map<string, OpenUrlRequest>
    /** The callbacks invoked, in order. */
    var invoked: seq<Invocation>

    constructor (instance: nat)
      ensures self == Service(OpenUrlServiceKind, EVENT_NAME, instance)
      ensures bridge == null && requests == map[] && invoked == []
    {
      self := Service(OpenUrlServiceKind, EVENT_NAME, instance);
      bridge := null;
      requests := map[];
      invoked := [];
    }

    method Initialize(b: AitSdkBridge)
      modifies this`bridge
      ensures bridge == b
    {
      bridge := b;
    }

    /**
     * `OpenURL(url, onSuccess, onFailure)` with `requestId` the fresh id `Guid.NewGuid()` gives:
     * an empty or null url fails at once; otherwise the request is stored and "url|requestId"
     * dispatched. The editor bridge answers success at once, which completes the request.
     */
    method OpenURL(url: Option<string>, onSuccess: Option<nat>, onFailure: Option<nat>, requestId: string)
      requires url.Some? && url.value != "" ==> bridge != null
      modifies this`requests, this`invoked, bridge
      ensures bridge == old(bridge)
      ensures (url.None? || url.value == "") ==> (
        && requests == old(requests)
        && invoked == old(invoked) + (if onFailure.Some? then [FailureInvoked(onFailure.value, EMPTY_URL)] else [])
        && (bridge != null ==> (
          && bridge.pendingRequests == old(bridge.pendingRequests)
          && bridge.dispatched == old(bridge.dispatched)
          && bridge.deliveries == old(bridge.deliveries))))
      ensures url.Some? && url.value != "" && bridge.webGL ==> (
        && requests == old(requests)[requestId := OpenUrlRequest(url.value, onSuccess, onFailure)]
        && invoked == old(invoked)
        && bridge.pendingRequests == old(bridge.pendingRequests)[requestId := Some(self)]
        && bridge.dispatched == old(bridge.dispatched) + [Dispatch(EVENT_NAME, Join(url.value, requestId))]
        && bridge.deliveries == old(bridge.deliveries))
      ensures url.Some? && url.value != "" && !bridge.webGL ==> (
        && requests == old(requests) - {requestId}
        && invoked == old(invoked) + (if onSuccess.Some? then [SuccessInvoked(onSuccess.value)] else [])
        && bridge.pendingRequests == old(bridge.pendingRequests)
        && bridge.dispatched == old(bridge.dispatched)
        && bridge.deliveries == old(bridge.deliveries) + [Delivery(self, requestId, Succeeded(Some(EDITOR_SUCCESS)))])
    {
      if url.None? || url.value == "" {
        if onFailure.Some? {
          invoked := invoked + [FailureInvoked(onFailure.value, EMPTY_URL)];
        }
        return;
      }
      requests := requests[requestId := OpenUrlRequest(url.value, onSuccess, onFailure)];
      bridge.DispatchEvent(EVENT_NAME, Join(url.value, requestId), Some(self), requestId);
      if !bridge.webGL {
        // The editor bridge calls this service's OnSuccess before DispatchEvent returns.
        OnSuccess(requestId, Some(EDITOR_SUCCESS));
      }
    }

    /** `OnSuccess`: a stored request calls its success callback, if any, and is removed. */
    method OnSuccess(requestId: string, data: Option<string>)
      modifies this`requests, this`invoked
      ensures requests == old(requests) - {requestId}
      ensures invoked == old(invoked) + (if requestId in old(requests) && old(requests)[requestId].onSuccess.Some?
                                         then [SuccessInvoked(old(requests)[requestId].onSuccess.value)] else [])
    {
      if requestId in requests {
        var request := requests[requestId];
        if request.onSuccess.Some? {
          invoked := invoked + [SuccessInvoked(request.onSuccess.value)];
        }
        requests := requests - {requestId};
      }
    }

    /** `OnFailure`: a stored request passes the message to its failure callback, if any, and is removed. */
    method OnFailure(requestId: string, message: string)
      modifies this`requests, this`invoked
      ensures requests == old(requests) - {requestId}
      ensures invoked == old(invoked) + (if requestId in old(requests) && old(requests)[requestId].onFailure.Some?
                                         then [FailureInvoked(old(requests)[requestId].onFailure.value, message)] else [])
    {
      if requestId in requests {
        var request := requests[requestId];
        if request.onFailure.Some? {
          invoked := invoked + [FailureInvoked(request.onFailure.value, message)];
        }
        requests := requests - {requestId};
      }
    }
  }

  // ---- Properties ----

  /** The bridge hands the web side's answer to a request id back unchanged, with what it carries. */
  lemma {:induction false} ReplyParsesBack(url: string, id: string, sdkError: Option<string>)
    requires url != "" && id != "" && SEP !in id
    ensures var run := Web.Handle(Join(url, id), sdkError, Web.DEFAULT_CALLBACK_CONFIG);
      && run.openedUrl == Some(url) && |run.sent| == 1
      && (sdkError.None? ==> run.sent[0].methodName == "OnSuccess" && SuccessArgs(run.sent[0].parameter) == (id, None))
      && (sdkError.Some? ==> run.sent[0].methodName == "OnFailure"
                             && FailureArgs(run.sent[0].parameter) == (id, sdkError.value))
  {
    Web.ParsePayloadJoin(url, id);
    SplitFirstPlain(id);
    if sdkError.Some? {
      FailureMessageKept(id, sdkError.value);
    }
  }

  /**
   * One request from end to end on the WebGL player: `OpenURL` dispatches it, the web handler
   * answers, the bridge routes the answer and the service completes it. Exactly the callback
   * that matches the SDK's outcome runs, once, and both request tables end as they began.
   */
  method OpenUrlRoundTrip(bridge: AitSdkBridge, service: OpenUrlService, url: string,
                          onSuccess: Option<nat>, onFailure: Option<nat>, requestId: string, sdkError: Option<string>)
      returns (route: Route)
    requires bridge.webGL && service.bridge == bridge
    requires url != "" && requestId != "" && SEP !in requestId
    requires requestId !in service.requests && requestId !in bridge.pendingRequests
    modifies service`requests, service`invoked, bridge
    ensures route == Delivered
    ensures service.requests == old(service.requests) && bridge.pendingRequests == old(bridge.pendingRequests)
    ensures sdkError.None? ==>
      service.invoked == old(service.invoked) + (if onSuccess.Some? then [SuccessInvoked(onSuccess.value)] else [])
    ensures sdkError.Some? ==>
      service.invoked == old(service.invoked) + (if onFailure.Some? then [FailureInvoked(onFailure.value, sdkError.value)] else [])
  {
    ghost var requests0, pending0 := service.requests, bridge.pendingRequests;
    service.OpenURL(Some(url), onSuccess, onFailure, requestId);
    ghost var request := OpenUrlRequest(url, onSuccess, onFailure);
    ghost var requests1, pending1 := service.requests, bridge.pendingRequests;
    assert requests1 == requests0[requestId := request] && pending1 == pending0[requestId := Some(service.self)];
    var run := Web.Handle(Join(url, requestId), sdkError, Web.DEFAULT_CALLBACK_CONFIG);
    ReplyParsesBack(url, requestId, sdkError);
    var reply := run.sent[0];
    if reply.methodName == "OnSuccess" {
      route := bridge.OnSuccess(reply.parameter);
    } else {
      route := bridge.OnFailure(reply.parameter);
    }
    var delivery := bridge.deliveries[|bridge.deliveries| - 1];
    assert delivery.service == service.self && delivery.requestId == requestId;
    if delivery.outcome.Succeeded? {
      service.OnSuccess(delivery.requestId, delivery.outcome.data);
    } else {
      service.OnFailure(delivery.requestId, delivery.outcome.message);
    }
    assert service.requests == requests1 - {requestId} && bridge.pendingRequests == pending1 - {requestId};
    AddThenRemove(requests0, requestId, request);
    AddThenRemove(pending0, requestId, Some(service.self));
  }
}
