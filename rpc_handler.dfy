/**
 * RpcHandler (server V1): looks the service bean up by the request's interface
 * name alone, invokes it, writes one response and then closes the connection.
 */
module RpcHandlerV1 {
  import opened Wrappers
  import opened JavaLang
  import opened Entities
  import opened ServerHandler

  /**
   * What V1's handle returns or throws: the bean registered under the class
   * name is invoked; a missing bean (or a null class name) is dereferenced
   * and throws a NullPointerException. The version plays no part.
   */
  function HandleV1(handlerMap: map<string, Value>, request: RpcRequest, invoke: Invoker): (r: Result<Value, Throwable>)
    ensures request.className.None? || request.className.value !in handlerMap || handlerMap[request.className.value] == Null
            ==> r == Err(NULL_POINTER)
    ensures request.className.Some? && request.className.value in handlerMap && handlerMap[request.className.value] != Null
            ==> r == invoke(handlerMap[request.className.value], request)
  {
    var serviceBean := Bean(handlerMap, request.className);
    if serviceBean == Null then Err(NULL_POINTER)   // serviceBean.getClass()
    else invoke(serviceBean, request)
  }

  class RpcHandler {
    /** The server's interface name to bean table. */
    const handlerMap: map<string, Value>
    /** Responses written to the channel, in order. */
    var written: seq<RpcResponse>
    /** Whether closing the channel has been requested. */
    var closing: bool

    constructor (handlerMap: map<string, Value>)
      ensures this.handlerMap == handlerMap && written == [] && !closing
    {
      this.handlerMap := handlerMap;
      written := [];
      closing := false;
    }

    /**
     * channelRead0: every request, heartbeat or not, gets a response with its
     * id and the handle result or the Throwable it threw; the channel is
     * closed once the write completes.
     */
    method ChannelRead0(request: RpcRequest, invoke: Invoker)
      modifies this`written, this`closing
      ensures written == old(written) + [ResponseFor(request, HandleV1(handlerMap, request, invoke))]
      ensures closing
    {
      var response := EMPTY_RESPONSE.(requestId := request.requestId);
      var outcome := HandleV1(handlerMap, request, invoke);
      match outcome {
        case Ok(result) => response := response.(result := result);
        case Err(t) => response := response.(error := Some(t));
      }
      written := written + [response];
      closing := true;
    }

    /** exceptionCaught: the channel is closed. */
    method ExceptionCaught(cause: Throwable)
      modifies this`closing
      ensures closing
    {
      closing := true;
    }
  }

  /** Unlike V2, a request for an unknown interface is answered with a NullPointerException as its error. */
  lemma MissingBeanReportsError(handlerMap: map<string, Value>, request: RpcRequest, invoke: Invoker)
    requires request.className.None? || request.className.value !in handlerMap
    ensures ResponseFor(request, HandleV1(handlerMap, request, invoke)) == RpcResponse(request.requestId, Some(NULL_POINTER), Null)
  {
  }
}
