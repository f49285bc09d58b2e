/**
 * The envelopes exchanged between client and server (RpcRequest, RpcResponse),
 * the heartbeat constants (Beat) and the registry constants (Constant).
 */
module Entities {
  import opened Wrappers
  import opened JavaLang

  /**
   * An application object carried as a parameter, a result or a service bean:
   * null, a boxed boolean (what a proxy answers to `equals` locally), or an
   * opaque object known by its runtime class name and its identity.
   */
  datatype Value = Null | Bool(b: bool) | Obj(className: string, id: nat)

  /** A call envelope; every field is a Java reference and may be null. */
  datatype RpcRequest = RpcRequest(
    requestId: JString,
    className: JString,
    methodName: JString,
    parameterTypes: Option<seq<string>>,
    parameters: Option<seq<Value>>,
    version: JString)

  /** A call result; `error` and `result` start out null. */
  datatype RpcResponse = RpcResponse(requestId: JString, error: Option<Throwable>, result: Value)

  /** `new RpcRequest()`: every field null. */
  const EMPTY_REQUEST: RpcRequest := RpcRequest(None, None, None, None, None, None)

  /** `new RpcResponse()`: every field null. */
  const EMPTY_RESPONSE: RpcResponse := RpcResponse(None, None, Null)

  const BEAT_INTERVAL: int := 30
  const BEAT_TIMEOUT: int := 3 * BEAT_INTERVAL
  /** The reserved request id of the heartbeat ping. */
  const BEAT_ID: string := "BEAT_PING_PONG"
  /** The heartbeat ping: a request whose only field set is its id. */
  const BEAT_PING: RpcRequest := EMPTY_REQUEST.(requestId := Some(BEAT_ID))

  const ZK_SESSION_TIMEOUT: int := 5000
  const ZK_CONNECTION_TIMEOUT: int := 5000
  const ZK_REGISTRY_PATH: string := "/rpcregistry"
  const ZK_DATA_PATH: string := ZK_REGISTRY_PATH + "/data"
  const ZK_NAMESPACE: string := "netty-rpc"
}
