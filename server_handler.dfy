/**
 * RpcServerHandler (server V2): drops heartbeat pings, hands every other
 * request to the server's worker pool, and there looks the service bean up by
 * service key, invokes it and writes one response carrying the request's id.
 */
module ServerHandler {
  import opened Wrappers
  import opened JavaLang
  import opened Entities
  import opened ServiceUtil
  import opened ClientHandler

  /**
   * The reflective call of the requested method on a service bean (cglib
   * FastClass lookup by name and parameter types, then invoke): a result, or
   * whatever the lookup or the service method throws.
   */
  type Invoker = (Value, RpcRequest) -> Result<Value, Throwable>

  /** The heartbeat filter: the request's id is BEAT_PING_PONG up to case. */
  predicate IsBeat(request: RpcRequest)
    ensures IsBeat(request) ==> request.requestId.Some? && |request.requestId.value| == |BEAT_ID|
    ensures request.requestId == Some(BEAT_ID) ==> IsBeat(request)
  {
    EqualsIgnoreCase(BEAT_ID, request.requestId)
  }

  /**
   * handle's key: makeServiceKey(className, version). A null class name
   * concatenates as "null" when a version is appended, and stays a null key
   * otherwise.
   */
  function LookupKey(request: RpcRequest): (key: JString)
    ensures request.className.Some? ==> key == Some(MakeServiceKey(request.className.value, request.version))
    ensures key.None? <==> request.className.None? && !HasVersion(request.version)
  {
    ServiceKey(request.className, request.version)
  }

  /** handlerMap.get(key): the bean stored under the key, or null (no null key is ever stored). */
  function Bean(handlerMap: map<string, Value>, key: JString): Value {
    if key.Some? && key.value in handlerMap then handlerMap[key.value] else Null
  }

  /**
   * What handle returns or throws, as written. A missing bean gives a null
   * result. Before the call, the debug loops read parameterTypes.length,
   * parameters.length and parameters[i].toString() whatever the log level,
   * so a null type array, a null argument array or a null argument throws a
   * NullPointerException. Otherwise the bean is invoked.
   */
  function HandleOutcome(handlerMap: map<string, Value>, request: RpcRequest, invoke: Invoker): (r: Result<Value, Throwable>)
    ensures Bean(handlerMap, LookupKey(request)) == Null ==> r == Ok(Null)
    ensures Bean(handlerMap, LookupKey(request)) != Null && ArgumentsPresent(request) ==>
      r == invoke(Bean(handlerMap, LookupKey(request)), request)
    ensures Bean(handlerMap, LookupKey(request)) != Null && !ArgumentsPresent(request) ==> r == Err(NULL_POINTER)
    ensures r != invoke(Bean(handlerMap, LookupKey(request)), request) ==> r == Ok(Null) || r == Err(NULL_POINTER)
  {
    var serviceBean := Bean(handlerMap, LookupKey(request));
    if serviceBean == Null then Ok(Null)
    else if request.parameterTypes.None? || request.parameters.None? || !NoNull(request.parameters.value) then Err(NULL_POINTER)
    else invoke(serviceBean, request)
  }

  /** The type array, the argument array and every argument are non-null: the debug loops read them all safely. */
  predicate ArgumentsPresent(request: RpcRequest) {
    request.parameterTypes.Some? && request.parameters.Some? && NoNull(request.parameters.value)
  }

  predicate NoNull(values: seq<Value>) {
    forall i :: 0 <= i < |values| ==> values[i] != Null
  }

  /**
   * The response of the worker task: the request's id, then the handle
   * result, or the Throwable it threw as the error (the result then stays null).
   */
  function ResponseFor(request: RpcRequest, outcome: Result<Value, Throwable>): (response: RpcResponse)
    ensures response.requestId == request.requestId
    ensures response.error.None? <==> outcome.Ok?
    ensures outcome.Ok? ==> response.result == outcome.value
    ensures outcome.Err? ==> response.error == Some(outcome.error) && response.result == Null
  {
    var response := EMPTY_RESPONSE.(requestId := request.requestId);
    match outcome
    case Ok(result) => response.(result := result)
    case Err(t) => response.(error := Some(t))
  }

  class RpcServerHandler {
    /** The server's service key to bean table. */
    const handlerMap: map<string, Value>
    /** Requests handed to the worker pool, in order. */
    var queued: seq<RpcRequest>
    /** Responses written to the channel, in order. */
    var written: seq<RpcResponse>
    /** Whether closing the channel has been requested. */
    var closing: bool

    constructor (handlerMap: map<string, Value>)
      ensures this.handlerMap == handlerMap && queued == [] && written == [] && !closing
    {
      this.handlerMap := handlerMap;
      queued := [];
      written := [];
      closing := false;
    }

    /** channelRead0: a heartbeat ping is dropped; any other request becomes one worker task. */
    method ChannelRead0(request: RpcRequest)
      modifies this`queued
      ensures IsBeat(request) ==> queued == old(queued)
      ensures !IsBeat(request) ==> queued == old(queued) + [request]
    {
      if IsBeat(request) {
        return;
      }
      queued := queued + [request];
    }

    /** handle, step by step: lookup, the debug loops over the types and the arguments, then the call. */
    method Handle(request: RpcRequest, invoke: Invoker) returns (r: Result<Value, Throwable>)
      ensures r == HandleOutcome(handlerMap, request, invoke)
    {
      var serviceKey := LookupKey(request);
      var serviceBean := Bean(handlerMap, serviceKey);
      if serviceBean == Null {
        return Ok(Null);
      }
      if request.parameterTypes.None? {
        return Err(NULL_POINTER);     // parameterTypes.length
      }
      if request.parameters.None? {
        return Err(NULL_POINTER);     // parameters.length
      }
      var parameters := request.parameters.value;
      for i := 0 to |parameters|
        invariant forall j :: 0 <= j < i ==> parameters[j] != Null
      {
        if parameters[i] == Null {
          return Err(NULL_POINTER);   // parameters[i].toString()
        }
      }
      r := invoke(serviceBean, request);
    }

    /** The worker task: build the response from handle's outcome and write it; the channel stays open. */
    method RunTask(request: RpcRequest, invoke: Invoker)
      modifies this`written
      ensures written == old(written) + [ResponseFor(request, HandleOutcome(handlerMap, request, invoke))]
    {
      var response := EMPTY_RESPONSE.(requestId := request.requestId);
      var outcome := Handle(request, invoke);
      match outcome {
        case Ok(result) => response := response.(result := result);
        case Err(t) => response := response.(error := Some(t));
      }
      written := written + [response];
    }

    /** exceptionCaught: the channel is closed. */
    method ExceptionCaught(cause: Throwable)
      modifies this`closing
      ensures closing
    {
      closing := true;
    }

    /** userEventTriggered: the idle event closes the channel; any other event is passed on. */
    method UserEventTriggered(evt: UserEvent) returns (forwarded: bool)
      modifies this`closing
      ensures forwarded <==> !evt.IdleStateEvent?
      ensures closing == (old(closing) || evt.IdleStateEvent?)
    {
      if evt.IdleStateEvent? {
        closing := true;
        forwarded := false;
      } else {
        forwarded := true;
      }
    }
  }

  /** A request whose service is not registered is answered with neither result nor error. */
  lemma MissingServiceEmptyResponse(handlerMap: map<string, Value>, request: RpcRequest, invoke: Invoker)
    requires LookupKey(request).None? || LookupKey(request).value !in handlerMap
    ensures ResponseFor(request, HandleOutcome(handlerMap, request, invoke)) == RpcResponse(request.requestId, None, Null)
  {
  }

  /**
   * A request for a registered bean whose arguments are all present reaches
   * the bean; the response carries the call's result, or what it threw.
   */
  lemma FoundServiceInvoked(handlerMap: map<string, Value>, request: RpcRequest, invoke: Invoker)
    requires Bean(handlerMap, LookupKey(request)) != Null
    requires request.parameterTypes.Some? && request.parameters.Some? && NoNull(request.parameters.value)
    ensures var response := ResponseFor(request, HandleOutcome(handlerMap, request, invoke));
            var called := invoke(Bean(handlerMap, LookupKey(request)), request);
            && (called.Ok? ==> response == RpcResponse(request.requestId, None, called.value))
            && (called.Err? ==> response == RpcResponse(request.requestId, Some(called.error), Null))
  {
  }

  /** As written, a registered bean is never reached by a request with a null argument array or a null argument. */
  lemma NullArgumentsNeverReachService(handlerMap: map<string, Value>, request: RpcRequest, invoke: Invoker)
    requires Bean(handlerMap, LookupKey(request)) != Null
    requires request.parameters.None? || !NoNull(request.parameters.value)
    ensures ResponseFor(request, HandleOutcome(handlerMap, request, invoke)) == RpcResponse(request.requestId, Some(NULL_POINTER), Null)
  {
  }

  /** The ping a client sends when idle is recognised, and so are its case variants. */
  lemma BeatPingFiltered(request: RpcRequest)
    requires request.requestId == Some("beat_ping_pong") || request.requestId == BEAT_PING.requestId
    ensures IsBeat(request)
  {
    if request.requestId == Some("beat_ping_pong") {
      var t := request.requestId.value;
      forall i | 0 <= i < |BEAT_ID|
        ensures CharEqualsIgnoreCase(BEAT_ID[i], t[i])
      {
        assert AsciiUpper(t[i]) == BEAT_ID[i];
      }
    }
  }

  /** A request id of any other length, such as a 36-character UUID, is never taken for a ping. */
  lemma OtherLengthNotBeat(request: RpcRequest)
    requires request.requestId.Some? && |request.requestId.value| != |BEAT_ID|
    ensures !IsBeat(request)
  {
  }

  /**
   * The finding's corrected handle: the debug logging does not dereference
   * anything, so a found bean is invoked whatever its arguments.
   */
  function HandleIntended(handlerMap: map<string, Value>, request: RpcRequest, invoke: Invoker): Result<Value, Throwable> {
    var serviceBean := Bean(handlerMap, LookupKey(request));
    if serviceBean == Null then Ok(Null) else invoke(serviceBean, request)
  }

  /** With the correction every request for a registered bean reaches the bean, and its response reports exactly what the call returned or threw. */
  lemma IntendedHandleReachesService(handlerMap: map<string, Value>, request: RpcRequest, invoke: Invoker)
    requires Bean(handlerMap, LookupKey(request)) != Null
    ensures var response := ResponseFor(request, HandleIntended(handlerMap, request, invoke));
            var called := invoke(Bean(handlerMap, LookupKey(request)), request);
            && (called.Ok? ==> response == RpcResponse(request.requestId, None, called.value))
            && (called.Err? ==> response == RpcResponse(request.requestId, Some(called.error), Null))
  {
  }

  /** The corrected handle agrees with the written one on every request the logging can print. */
  lemma IntendedAgreesWhenPrintable(handlerMap: map<string, Value>, request: RpcRequest, invoke: Invoker)
    requires request.parameterTypes.Some? && request.parameters.Some? && NoNull(request.parameters.value)
    ensures HandleIntended(handlerMap, request, invoke) == HandleOutcome(handlerMap, request, invoke)
  {
  }
}
