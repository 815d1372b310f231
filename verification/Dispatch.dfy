/**
  The adapter's CIP dispatcher: it routes a request to the object its path
  names, and recurses through Unconnected_Send. Nesting is transparent.
 */
module Dispatch {
  import opened Bytes
  import opened EPath

  const STATUS_SUCCESS: Byte := 0x00
  const STATUS_PATH_SEGMENT_ERROR: Byte := 0x04
  const STATUS_PATH_DEST_UNKNOWN: Byte := 0x05
  const STATUS_INVALID_PARAMETER: Byte := 0x20

  const UNCONNECTED_SEND: Byte := 0x52
  const CM_CLASS: U32 := 6
  const CM_INSTANCE: U32 := 1

  datatype ObjectRequest = ObjectRequest(service: Byte, path: ParsedPath, data: seq<Byte>, session: U32, connID: U32)

  datatype ObjectResponse = ObjectResponse(status: Byte, extData: seq<U16>, data: seq<Byte>)

  /** An object is any deterministic service on the adapter's state. */
  datatype Handled<S> = Handled(response: ObjectResponse, state: S)
  type Handler<!S> = (S, ObjectRequest) -> Handled<S>

  /** Objects by class and instance. */
  type Registry<!S> = map<U32, map<U32, Handler<S>>>

  function Lookup<S>(registry: Registry<S>, class_: U32, instance: U32): Option<Handler<S>> {
    if class_ in registry && instance in registry[class_] then Some(registry[class_][instance]) else None
  }

  /** Adds or replaces one object and leaves all others as they were. */
  function Register<S>(registry: Registry<S>, class_: U32, instance: U32, object_: Handler<S>): (r: Registry<S>)
    ensures forall c, i :: Lookup(r, c, i) == if c == class_ && i == instance then Some(object_) else Lookup(registry, c, i)
  {
    var instances := if class_ in registry then registry[class_] else map[];
    registry[class_ := instances[instance := object_]]
  }

  // ---------------------------------------------------------------- responses

  /** The service code with the reply bit set. */
  function ReplyService(service: Byte): (r: Byte)
    ensures r >= 0x80 && (r == service || r as int == service as int + 0x80)
  {
    if service < 0x80 then service + 0x80 else service
  }

  function OkResponse(service: Byte, data: seq<Byte>): (r: seq<Byte>)
    ensures |r| >= 4
  {
    [ReplyService(service), 0, STATUS_SUCCESS, 0] + data
  }

  /** The count byte wraps beyond 255 extended status words. */
  function ErrResponse(service: Byte, status: Byte, extended: seq<U16>): (r: seq<Byte>)
    ensures |r| >= 4
  {
    [ReplyService(service), 0, status, |extended| % 0x100] + LeWords(extended)
  }

  function Respond(service: Byte, response: ObjectResponse): (r: seq<Byte>)
    ensures |r| >= 4 && r[2] == response.status && 4 + 2 * r[3] as int <= |r|
    ensures response.status == STATUS_SUCCESS ==> r[3] == 0 && r[4..] == response.data
  {
    if response.status == STATUS_SUCCESS then OkResponse(service, response.data)
    else ErrResponse(service, response.status, response.extData)
  }

  // ---------------------------------------------------------------- specification

  /** Where a request goes: straight back with an error status, into an Unconnected_Send, or to an object. */
  datatype Target =
    | Reject(service: Byte, status: Byte)
    | Unwrap(data: seq<Byte>)
    | ToObject(class_: U32, instance: U32, service: Byte, path: ParsedPath, data: seq<Byte>)

  function Route(request: seq<Byte>): (t: Target)
    ensures t.Unwrap? ==> |t.data| < |request|
  {
    if |request| < 2 then Reject(0, STATUS_PATH_SEGMENT_ERROR) else
      var service, pathLength := request[0], 2 * request[1] as int;
      if |request| < 2 + pathLength then Reject(service, STATUS_PATH_SEGMENT_ERROR) else
        var parsed := ParseFrom(request[2..2 + pathLength], NOTHING);
        var data := request[2 + pathLength..];
        if parsed.Err? || parsed.value.class_.None? then Reject(service, STATUS_PATH_SEGMENT_ERROR) else
          var class_ := parsed.value.class_.value;
          var instance := if parsed.value.instance.Some? then parsed.value.instance.value else 1;
          if class_ == CM_CLASS && instance == CM_INSTANCE && service == UNCONNECTED_SEND then Unwrap(data)
          else ToObject(class_, instance, service, parsed.value, data)
  }

  /** The reply, the state after it, and the requests objects were given on the way. */
  datatype Outcome<S> = Outcome(reply: seq<Byte>, state: S, calls: seq<ObjectRequest>)

  /** The embedded message of an Unconnected_Send, if its size field fits the data. */
  function Embedded(data: seq<Byte>): (e: Option<seq<Byte>>)
    ensures e.Some? ==> |e.value| < |data|
  {
    if |data| < 4 || 4 + GetLe16(data, 2) as int > |data| then None else Some(data[4..4 + GetLe16(data, 2)])
  }

  /** An inner reply, as the outer object passes it on: its body on success, its status alone otherwise. */
  function PassOn(inner: seq<Byte>): ObjectResponse
    requires |inner| >= 4
  {
    var bodyStart := 4 + 2 * inner[3] as int;
    if bodyStart > |inner| then ObjectResponse(STATUS_INVALID_PARAMETER, [], [])
    else if inner[2] != STATUS_SUCCESS then ObjectResponse(inner[2], [], [])
    else ObjectResponse(STATUS_SUCCESS, [], inner[bodyStart..])
  }

  function Dispatched<S>(registry: Registry<S>, state: S, request: seq<Byte>, session: U32, connID: U32): (o: Outcome<S>)
    ensures |o.reply| >= 4
    decreases |request|
  {
    match Route(request)
    case Reject(service, status) => Outcome(ErrResponse(service, status, []), state, [])
    case Unwrap(data) =>
      var embedded := Embedded(data);
      if embedded.None? then Outcome(Respond(UNCONNECTED_SEND, ObjectResponse(STATUS_INVALID_PARAMETER, [], [])), state, [])
      else
        var inner := Dispatched(registry, state, embedded.value, 0, 0);
        Outcome(Respond(UNCONNECTED_SEND, PassOn(inner.reply)), inner.state, inner.calls)
    case ToObject(class_, instance, service, path, data) =>
      match Lookup(registry, class_, instance)
      case None => Outcome(ErrResponse(service, STATUS_PATH_DEST_UNKNOWN, []), state, [])
      case Some(object_) =>
        var call := ObjectRequest(service, path, data, session, connID);
        var handled := object_(state, call);
        Outcome(Respond(service, handled.response), handled.state, [call])
  }

  // ---------------------------------------------------------------- implementation

  class Adapter<S> {
    const registry: Registry<S>
    var state: S
    ghost var calls: seq<ObjectRequest>

    constructor (registry: Registry<S>, state: S)
      ensures this.registry == registry && this.state == state && calls == []
    {
      this.registry, this.state, calls := registry, state, [];
    }

    method Dispatch(request: seq<Byte>, session: U32, connID: U32) returns (reply: seq<Byte>)
      modifies this
      ensures old(calls) <= calls
      ensures Outcome(reply, state, calls[|old(calls)|..]) == Dispatched(registry, old(state), request, session, connID)
      decreases |request|, 1
    {
      hide Route, Respond;
      match Route(request) {
        case Reject(service, status) =>
          reply := ErrResponse(service, status, []);
        case Unwrap(data) =>
          var response := HandleUnconnectedSend(data);
          reply := Respond(UNCONNECTED_SEND, response);
        case ToObject(class_, instance, service, path, data) =>
          var object_ := Lookup(registry, class_, instance);
          if object_.None? {
            reply := ErrResponse(service, STATUS_PATH_DEST_UNKNOWN, []);
          } else {
            var call := ObjectRequest(service, path, data, session, connID);
            var handled := object_.value(state, call);
            state := handled.state;
            calls := calls + [call];
            reply := Respond(service, handled.response);
          }
      }
    }

    method HandleUnconnectedSend(data: seq<Byte>) returns (response: ObjectResponse)
      modifies this
      ensures old(calls) <= calls
      ensures var embedded := Embedded(data);
              if embedded.None? then
                response == ObjectResponse(STATUS_INVALID_PARAMETER, [], []) && state == old(state) && calls == old(calls)
              else
                var inner := Dispatched(registry, old(state), embedded.value, 0, 0);
                response == PassOn(inner.reply) && state == inner.state && calls[|old(calls)|..] == inner.calls
      decreases |data|, 0
    {
      if |data| < 4 {
        return ObjectResponse(STATUS_INVALID_PARAMETER, [], []);
      }
      var size := GetLe16(data, 2) as int;
      if 4 + size > |data| {
        return ObjectResponse(STATUS_INVALID_PARAMETER, [], []);
      }
      var inner := Dispatch(data[4..4 + size], 0, 0);
      response := PassOn(inner);
    }
  }

  // ---------------------------------------------------------------- transparency

  /** The body of an Unconnected_Send: timing, size, message, pad and route. */
  function SendBody(request: seq<Byte>, route: seq<Byte>): seq<Byte> {
    [0x0A, 0x05] + Le16(ToU16(|request|))
    + (request + ((if |request| % 2 != 0 then [0] else []) + [|route| / 2 % 0x100, 0] + route))
  }

  /** A request wrapped for routing: Unconnected_Send to the connection manager. */
  function Wrap(request: seq<Byte>, route: seq<Byte>): seq<Byte> {
    [UNCONNECTED_SEND, 2, 0x20, 0x06, 0x24, 0x01] + SendBody(request, route)
  }

  /** Wrapped once for each route, the last one innermost. */
  function WrapAll(request: seq<Byte>, routes: seq<seq<Byte>>): seq<Byte> {
    if routes == [] then request else Wrap(WrapAll(request, routes[1..]), routes[0])
  }

  /** The 16-bit size field of every wrapper holds what it wraps. */
  predicate Fits(request: seq<Byte>, routes: seq<seq<Byte>>) {
    routes == [] || (|WrapAll(request, routes[1..])| < 0x1_0000 && Fits(request, routes[1..]))
  }

  lemma {:induction false} ManagerPath()
    ensures ParseFrom([0x20, 0x06, 0x24, 0x01], NOTHING) ==
            Ok(NOTHING.(class_ := Some(CM_CLASS), instance := Some(CM_INSTANCE)))
  {
    var calls := [Class(6), Instance(1)];
    assert calls[1..] == [Instance(1)] && calls[1..][1..] == [];
    assert calls[..1] == [Class(6)] && [Class(6)][..0] == [];
    assert Built(calls) == Segment(Class(6)) + (Segment(Instance(1)) + []);
    assert Built(calls) + [] == [0x20, 0x06, 0x24, 0x01];
    ParseInvertsBuilder(calls, []);
  }

  lemma {:induction false} RouteOfManager(data: seq<Byte>)
    ensures Route([UNCONNECTED_SEND, 2, 0x20, 0x06, 0x24, 0x01] + data) == Unwrap(data)
  {
    var w := [UNCONNECTED_SEND, 2, 0x20, 0x06, 0x24, 0x01] + data;
    ManagerPath();
    assert w[2..6] == [0x20, 0x06, 0x24, 0x01] && w[6..] == data;
  }

  lemma {:induction false} EmbeddedOf(size: U16, request: seq<Byte>, tail: seq<Byte>)
    requires size as int <= |request|
    ensures Embedded([0x0A, 0x05] + Le16(size) + (request + tail)) == Some(request[..size])
  {
    var data := [0x0A, 0x05] + Le16(size) + (request + tail);
    assert data[2..4] == Le16(size);
    Le16RoundTrip(data, 2, size);
    assert data[4..4 + size as int] == request[..size];
  }

  /** The wrapper is opened to what was wrapped, exactly when its size field holds the length. */
  lemma {:induction false} RouteOfWrap(request: seq<Byte>, route: seq<Byte>)
    ensures Route(Wrap(request, route)).Unwrap?
    ensures Embedded(Route(Wrap(request, route)).data) == Some(request[..ToU16(|request|)])
    ensures Embedded(Route(Wrap(request, route)).data) == Some(request) <==> |request| < 0x1_0000
  {
    hide Route, Embedded;
    var size := ToU16(|request|);
    RouteOfManager(SendBody(request, route));
    EmbeddedOf(size, request, (if |request| % 2 != 0 then [0] else []) + [|route| / 2 % 0x100, 0] + route);
    assert |request[..size]| == size as int;
    if |request| < 0x1_0000 {
      assert request[..size] == request;
    }
  }

  /** What an outer reply keeps of an inner one. */
  function Outer(inner: seq<Byte>): seq<Byte>
    requires |inner| >= 4
  {
    if inner[2] == STATUS_SUCCESS then [ReplyService(UNCONNECTED_SEND), 0, STATUS_SUCCESS, 0] + inner[4..]
    else [ReplyService(UNCONNECTED_SEND), 0, inner[2], 0]
  }

  /** Every reply states its own header length, none on success. */
  lemma {:induction false} ReplyShape<S>(registry: Registry<S>, state: S, request: seq<Byte>, session: U32, connID: U32)
    ensures var reply := Dispatched(registry, state, request, session, connID).reply;
            4 + 2 * reply[3] as int <= |reply| && (reply[2] == STATUS_SUCCESS ==> reply[3] == 0)
    ensures |Dispatched(registry, state, request, session, connID).calls| <= 1
    decreases |request|
  {
    hide Respond, PassOn, Route;
    match Route(request)
    case Unwrap(data) =>
      if Embedded(data).Some? {
        ReplyShape(registry, state, Embedded(data).value, 0, 0);
      }
    case _ =>
  }

  /**
    Wrapping a request any number of times, along any routes, changes neither
    what the objects are asked nor the state they leave, and the reply keeps
    the general status and the body.
   */
  lemma {:induction false} NestingIsTransparent<S>(registry: Registry<S>, state: S, request: seq<Byte>,
                                                   routes: seq<seq<Byte>>, session: U32, connID: U32)
    requires routes != [] && Fits(request, routes)
    ensures var direct := Dispatched(registry, state, request, 0, 0);
            Dispatched(registry, state, WrapAll(request, routes), session, connID) ==
            Outcome(Outer(direct.reply), direct.state, direct.calls)
    decreases |routes|
  {
    hide Route, Embedded, Wrap, Outer;
    var inner := WrapAll(request, routes[1..]);
    RouteOfWrap(inner, routes[0]);
    ReplyShape(registry, state, inner, 0, 0);
    var direct := Dispatched(registry, state, request, 0, 0);
    var within := Dispatched(registry, state, inner, 0, 0);
    OuterOf(within.reply);
    if |routes| > 1 {
      NestingIsTransparent(registry, state, request, routes[1..], 0, 0);
      OuterTwice(direct.reply);
    } else {
      assert routes[1..] == [];
    }
  }

  lemma {:induction false} OuterOf(inner: seq<Byte>)
    requires |inner| >= 4 && 4 + 2 * inner[3] as int <= |inner| && (inner[2] == STATUS_SUCCESS ==> inner[3] == 0)
    ensures Respond(UNCONNECTED_SEND, PassOn(inner)) == Outer(inner)
  {
  }

  lemma {:induction false} OuterTwice(inner: seq<Byte>)
    requires |inner| >= 4
    ensures |Outer(inner)| >= 4 && Outer(Outer(inner)) == Outer(inner)
  {
    if inner[2] == STATUS_SUCCESS {
      assert Outer(inner)[4..] == inner[4..];
    }
  }
}
