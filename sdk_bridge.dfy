// The legacy string-payload bridge: services register under their event name, a dispatched
// request is remembered under its request id, and the web side's "requestId" or
// "requestId|data" callback is routed back to the service that made the request, once.
module SdkBridge {
  import opened Wrappers
  import opened Payloads

  /** The concrete type of a registered service, which `GetService<T>` tests. */
  datatype ServiceKind = OpenUrlServiceKind | OtherServiceKind(typeName: string)

  /** A service object: its type, the event name it answers to, and which object it is. */
  datatype Service = Service(kind: ServiceKind, eventName: string, instance: nat)

  /** What the bridge passes on: `OnSuccess(requestId, data)` or `OnFailure(requestId, message)`. */
  datatype Outcome = Succeeded(data: Option<string>) | Failed(message: string)

  /** One call the bridge makes into a service. */
  datatype Delivery = Delivery(service: Service, requestId: string, outcome: Outcome)

  /** One `dispatchReactUnityEvent(eventName, payload)` call. */
  datatype Dispatch = Dispatch(eventName: string, payload: string)

  /**
   * How a callback from the web side ended: handed to the service, dropped with a warning
   * because no request is pending under its id, or stopped by the null reference exception of
   * a request that was dispatched without a service.
   */
  datatype Route = Delivered | NoPendingRequest | NullService

  const UNKNOWN_ERROR: string := "Unknown error"
  const EDITOR_SUCCESS: string := "Editor simulation - success"

  /** The request id and the data of a success callback: "requestId" or "requestId|data". */
  function SuccessArgs(payload: string): (r: (string, Option<string>))
    ensures SEP !in r.0
    ensures r.1.None? <==> SEP !in payload
    ensures r.1.Some? ==> payload == Join(r.0, r.1.value)
  {
    SplitFirst(payload)
  }

  /** The request id and the message of a failure callback; a bare id fails with "Unknown error". */
  function FailureArgs(payload: string): (r: (string, string))
    ensures SEP !in r.0
    ensures SEP in payload ==> payload == Join(r.0, r.1)
    ensures SEP !in payload ==> r == (payload, UNKNOWN_ERROR)
  {
    var (id, rest) := SplitFirst(payload);
    (id, if rest.Some? then rest.value else UNKNOWN_ERROR)
  }

  /** The first registered service of type `kind`, in registration order. */
  function FirstOfKind(order: seq<string>, services: map<string, Service>, kind: ServiceKind): (r: Option<Service>)
    ensures r.None? <==> forall i :: 0 <= i < |order| && order[i] in services ==> services[order[i]].kind != kind
    ensures r.Some? ==> exists i :: (0 <= i < |order| && order[i] in services && services[order[i]] == r.value
      && r.value.kind == kind
      && forall j :: 0 <= j < i && order[j] in services ==> services[order[j]].kind != kind)
    decreases |order|
  {
    if |order| == 0 then None
    else if order[0] in services && services[order[0]].kind == kind then Some(services[order[0]])
    else
      var rest := FirstOfKind(order[1..], services, kind);
      assert forall i :: 1 <= i < |order| ==> order[i] == order[1..][i - 1];
      if rest.Some? then
        ghost var k :| 0 <= k < |order[1..]| && order[1..][k] in services && services[order[1..][k]] == rest.value
          && rest.value.kind == kind
          && forall j :: 0 <= j < k && order[1..][j] in services ==> services[order[1..][j]].kind != kind;
        assert forall j :: 0 <= j < k + 1 && order[j] in services ==> services[order[j]].kind != kind;
        rest
      else rest
  }

  class AitSdkBridge {
    /** Whether this is the WebGL player build (`UNITY_WEBGL && !UNITY_EDITOR`). */
    const webGL: bool
    /** The keys of `_services` in the order they were first added, which its enumeration follows. */
    var serviceOrder: seq<string>
    var services: map<string, Service>
    var pendingRequests: map<string, Option<Service>>
    /** The services whose `Initialize(this)` has been called, in order. */
    var initialized: seq<Service>
    /** The events sent to the web side, in order. */
    var dispatched: seq<Dispatch>
    /** The calls made into services' `OnSuccess` and `OnFailure`, in order. */
    var deliveries: seq<Delivery>

    /** The registration order lists each registered event name once. */
    ghost predicate Valid()
      reads this
    {
      && (forall i, j :: 0 <= i < j < |serviceOrder| ==> serviceOrder[i] != serviceOrder[j])
      && (forall name :: name in services <==> name in serviceOrder)
    }

    constructor (webGL: bool)
      ensures Valid() && this.webGL == webGL
      ensures serviceOrder == [] && services == map[] && pendingRequests == map[]
      ensures initialized == [] && dispatched == [] && deliveries == []
    {
      this.webGL := webGL;
      serviceOrder := [];
      services := map[];
      pendingRequests := map[];
      initialized := [];
      dispatched := [];
      deliveries := [];
    }

    /**
     * `RegisterService`: initialises the service, then stores it under its event name; a second
     * service with the same name replaces the first and keeps its place in the order.
     */
    method RegisterService(service: Service)
      requires Valid()
      modifies this`serviceOrder, this`services, this`initialized
      ensures Valid()
      ensures services == old(services)[service.eventName := service]
      ensures serviceOrder == if service.eventName in old(services) then old(serviceOrder)
                              else old(serviceOrder) + [service.eventName]
      ensures initialized == old(initialized) + [service]
    {
      initialized := initialized + [service];
      if service.eventName !in services {
        serviceOrder := serviceOrder + [service.eventName];
      }
      services := services[service.eventName := service];
    }

    /**
     * `DispatchEvent`: the WebGL player records the requesting service under the request id and
     * sends the event; the editor sends nothing and answers the service's success at once.
     */
    method DispatchEvent(eventName: string, payload: string, service: Option<Service>, requestId: string)
      modifies this`pendingRequests, this`dispatched, this`deliveries
      ensures webGL ==> (
        && pendingRequests == old(pendingRequests)[requestId := service]
        && dispatched == old(dispatched) + [Dispatch(eventName, payload)]
        && deliveries == old(deliveries))
      ensures !webGL ==> (
        && pendingRequests == old(pendingRequests)
        && dispatched == old(dispatched)
        && deliveries == old(deliveries)
           + (if service.Some? then [Delivery(service.value, requestId, Succeeded(Some(EDITOR_SUCCESS)))] else []))
    {
      if webGL {
        pendingRequests := pendingRequests[requestId := service];
        dispatched := dispatched + [Dispatch(eventName, payload)];
      } else if service.Some? {
        deliveries := deliveries + [Delivery(service.value, requestId, Succeeded(Some(EDITOR_SUCCESS)))];
      }
    }

    /** Hands `outcome` to the service pending under `requestId` and forgets the request. */
    method Deliver(requestId: string, outcome: Outcome) returns (route: Route)
      modifies this`pendingRequests, this`deliveries
      ensures route == Delivered <==> requestId in old(pendingRequests) && old(pendingRequests)[requestId].Some?
      ensures route == NoPendingRequest <==> requestId !in old(pendingRequests)
      ensures route == Delivered ==>
                pendingRequests == old(pendingRequests) - {requestId}
                && deliveries == old(deliveries) + [Delivery(old(pendingRequests)[requestId].value, requestId, outcome)]
      ensures route != Delivered ==> pendingRequests == old(pendingRequests) && deliveries == old(deliveries)
    {
      if requestId !in pendingRequests {
        route := NoPendingRequest;
      } else if pendingRequests[requestId].None? {
        route := NullService;
      } else {
        deliveries := deliveries + [Delivery(pendingRequests[requestId].value, requestId, outcome)];
        pendingRequests := pendingRequests - {requestId};
        route := Delivered;
      }
    }

    /** `OnSuccess(payload)`, called by the web side with "requestId" or "requestId|data". */
    method OnSuccess(payload: string) returns (route: Route)
      modifies this`pendingRequests, this`deliveries
      ensures var (id, data) := SuccessArgs(payload);
              && (route == Delivered <==> id in old(pendingRequests) && old(pendingRequests)[id].Some?)
              && (route == NoPendingRequest <==> id !in old(pendingRequests))
              && (route == Delivered ==>
                    pendingRequests == old(pendingRequests) - {id}
                    && deliveries == old(deliveries) + [Delivery(old(pendingRequests)[id].value, id, Succeeded(data))])
              && (route != Delivered ==> pendingRequests == old(pendingRequests) && deliveries == old(deliveries))
    {
      var (id, data) := SplitFirst(payload);
      route := Deliver(id, Succeeded(data));
    }

    /** `OnFailure(payload)`, called by the web side with "requestId|errorMessage". */
    method OnFailure(payload: string) returns (route: Route)
      modifies this`pendingRequests, this`deliveries
      ensures var (id, message) := FailureArgs(payload);
              && (route == Delivered <==> id in old(pendingRequests) && old(pendingRequests)[id].Some?)
              && (route == NoPendingRequest <==> id !in old(pendingRequests))
              && (route == Delivered ==>
                    pendingRequests == old(pendingRequests) - {id}
                    && deliveries == old(deliveries) + [Delivery(old(pendingRequests)[id].value, id, Failed(message))])
              && (route != Delivered ==> pendingRequests == old(pendingRequests) && deliveries == old(deliveries))
    {
      var (id, message) := FailureArgs(payload);
      route := Deliver(id, Failed(message));
    }

    /** `GetService<T>()`: the first registered service of type `kind` in enumeration order, or null. */
    method GetService(kind: ServiceKind) returns (r: Option<Service>)
      requires Valid()
      ensures r == FirstOfKind(serviceOrder, services, kind)
      ensures r.Some? ==> r.value.kind == kind && r.value in services.Values
      ensures r.None? ==> forall name :: name in services ==> services[name].kind != kind
    {
      var i := 0;
      while i < |serviceOrder|
        invariant 0 <= i <= |serviceOrder|
        invariant FirstOfKind(serviceOrder, services, kind) == FirstOfKind(serviceOrder[i..], services, kind)
      {
        assert serviceOrder[i..][1..] == serviceOrder[i + 1..];
        var name := serviceOrder[i];
        if services[name].kind == kind {
          return Some(services[name]);
        }
        i := i + 1;
      }
      return None;
    }
  }

  // ---- Properties ----

  /**
   * A request is answered at most once: after one callback has been delivered, a second one for
   * the same id, success or failure, finds nothing pending and changes nothing.
   */
  method DeliveredOnce(bridge: AitSdkBridge, first: string, second: string) returns (r1: Route, r2: Route)
    requires SuccessArgs(first).0 == FailureArgs(second).0
    modifies bridge`pendingRequests, bridge`deliveries
    ensures r1 == Delivered ==> r2 == NoPendingRequest && |bridge.deliveries| == |old(bridge.deliveries)| + 1
  {
    r1 := bridge.OnSuccess(first);
    r2 := bridge.OnFailure(second);
  }

  /** A failure message that itself holds separators reaches the service whole. */
  lemma {:induction false} FailureMessageKept(id: string, message: string)
    requires SEP !in id
    ensures FailureArgs(Join(id, message)) == (id, message)
  {
    SplitFirstJoin(Join(id, message), id, message);
  }

  /** A success callback with data "id|data" passes on exactly that data; a bare id passes null. */
  lemma {:induction false} SuccessDataKept(id: string, data: string)
    requires SEP !in id
    ensures SuccessArgs(Join(id, data)) == (id, Some(data))
    ensures SuccessArgs(id) == (id, None)
  {
    SplitFirstJoin(Join(id, data), id, data);
    SplitFirstPlain(id);
  }

  /** The first service of a kind is found wherever it sits, and a later one of the same kind is not. */
  lemma {:induction false} FirstOfKindFirst(order: seq<string>, services: map<string, Service>, i: nat)
    requires i < |order| && order[i] in services
    requires forall j :: 0 <= j < i && order[j] in services ==> services[order[j]].kind != services[order[i]].kind
    ensures FirstOfKind(order, services, services[order[i]].kind) == Some(services[order[i]])
    decreases i
  {
    if i > 0 {
      assert order[1..][i - 1] == order[i];
      FirstOfKindFirst(order[1..], services, i - 1);
    }
  }
}
