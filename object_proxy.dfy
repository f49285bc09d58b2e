/**
 * ObjectProxy: the client-side invocation handler behind a service proxy. A
 * call on the proxy becomes an RpcRequest routed by the service key of the
 * declaring interface; the three Object methods never leave the process.
 */
module Proxy {
  import opened Wrappers
  import opened JavaLang
  import opened Entities
  import opened ServiceUtil
  import opened Protocol
  import opened Future
  import opened ClientHandler
  import opened LoadBalance
  import opened ConnectionManagement

  /** The name of java.lang.Object, the declaring class of equals, hashCode and toString. */
  const OBJECT_CLASS: string := "java.lang.Object"

  /**
   * A reflected Method: its declaring class, its name, its declared parameter
   * types (by class name) and its String.valueOf text.
   */
  datatype JMethod = JMethod(declaringClass: string, name: string, parameterTypes: seq<string>, text: string)

  /**
   * What a call on the proxy comes to: a value answered in the process, the
   * proxy's identity (hashCode and toString), an exception, a wait for the
   * first connection, a request sent on `handler` whose response `future`
   * will carry (the synchronous invoke then returns `future.get()`; call
   * returns the future), or a request entered on `handler`'s table whose
   * write failed, so that the write's cause `error` is thrown.
   */
  datatype ProxyOutcome =
    | Answered(value: Value)
    | IdentityAnswer
    | Threw(error: Throwable)
    | WaitingForConnection
    | Sent(handler: RpcClientHandler, future: RpcFuture)
    | SendFailed(handler: RpcClientHandler, error: Throwable)

  /** The request reached a connection: it was entered on `handler`'s table and written. */
  predicate Reached(r: ProxyOutcome) {
    r.Sent? || r.SendFailed?
  }

  /** obj.getClass(): the runtime class of a non-null argument. */
  function ClassOf(v: Value): Result<string, Throwable> {
    match v
    case Null => Err(NULL_POINTER)
    case Bool(_) => Ok("java.lang.Boolean")
    case Obj(className, _) => Ok(className)
  }

  predicate NoNullArgs(args: seq<Value>) {
    forall i :: 0 <= i < |args| ==> args[i] != Null
  }

  /**
   * The Object-method branch of invoke: `equals` compares the proxy with its
   * argument by reference, hashCode and toString answer with the proxy's
   * identity, and any other Object method is refused.
   */
  function ObjectMethodAnswer(proxy: Value, m: JMethod, args: Option<seq<Value>>): (r: ProxyOutcome)
    ensures m.name == "equals" && args.Some? && |args.value| > 0 ==>
      r == Answered(Bool(args.value[0] == proxy))
    ensures r == Answered(Bool(true)) <==> m.name == "equals" && args.Some? && |args.value| > 0 && args.value[0] == proxy
    ensures r.IdentityAnswer? <==> m.name == "hashCode" || m.name == "toString"
    ensures m.name !in {"equals", "hashCode", "toString"} ==> r == Threw(Raise(IllegalStateException, m.text))
    ensures !Reached(r) && !r.WaitingForConnection?
  {
    if m.name == "equals" then
      if args.None? then Threw(NULL_POINTER)
      else if |args.value| == 0 then Threw(Raise(ArrayIndexOutOfBoundsException, "Index 0 out of bounds for length 0"))
      else Answered(Bool(proxy == args.value[0]))
    else if m.name == "hashCode" || m.name == "toString" then IdentityAnswer
    else Threw(Raise(IllegalStateException, m.text))
  }

  /** The request invoke builds: a fresh id, the declaring interface, the method's name and declared types, the arguments as given, the proxy's version. */
  function InvokeRequest(m: JMethod, args: Option<seq<Value>>, version: JString, requestId: string): (r: RpcRequest)
    ensures ServiceKey(r.className, r.version) == Some(MakeServiceKey(m.declaringClass, version))
    ensures r.requestId == Some(requestId) && r.methodName == Some(m.name)
    ensures r.parameterTypes == Some(m.parameterTypes) && r.parameters == args
  {
    EMPTY_REQUEST
      .(requestId := Some(requestId))
      .(className := Some(m.declaringClass))
      .(methodName := Some(m.name))
      .(parameterTypes := Some(m.parameterTypes))
      .(parameters := args)
      .(version := version)
  }

  /** Every handler of the manager keeps its pending-call table well formed. */
  ghost predicate HandlersValid(manager: ConnectionManager)
    reads manager, manager.connectedServerNodes.Values, set h, f | h in manager.connectedServerNodes.Values && f in h.pendingRPC.Values :: f
  {
    forall h :: h in manager.connectedServerNodes.Values ==> h.Valid()
  }

  /** `handler` is connected under a descriptor that advertises `serviceKey`. */
  ghost predicate ServesKey(nodes: map<RpcProtocol, RpcClientHandler>, serviceKey: string, handler: RpcClientHandler) {
    exists p :: p in nodes && nodes[p] == handler && CountKey(Services(p), Some(serviceKey)) > 0
  }

  class ObjectProxy {
    /** The proxied interface's name (clazz.getName()). */
    const className: string
    const version: JString

    constructor (className: string, version: JString)
      ensures this.className == className && this.version == version
    {
      this.className := className;
      this.version := version;
    }

    /**
     * invoke: Object methods are answered by ObjectMethodAnswer. Any other
     * method is routed on the service key of its declaring interface; the
     * chosen connection registers a future for the request and sends it, and
     * a failed write throws its cause out of invoke.
     */
    method Invoke(manager: ConnectionManager, proxy: Value, m: JMethod, args: Option<seq<Value>>,
                  requestId: string, draw: nat, write: WriteOutcome) returns (r: ProxyOutcome)
      requires HandlersValid(manager)
      modifies manager.connectedServerNodes.Values`pendingRPC, manager.connectedServerNodes.Values`sent
      ensures HandlersValid(manager)
      ensures m.declaringClass == OBJECT_CLASS ==> r == ObjectMethodAnswer(proxy, m, args)
      ensures m.declaringClass != OBJECT_CLASS ==>
        var nodes := manager.connectedServerNodes;
        var serviceKey := MakeServiceKey(m.declaringClass, version);
        && (r.WaitingForConnection? <==> manager.isRunning && |nodes| == 0)
        && !r.Answered? && !r.IdentityAnswer?
        && (r.Threw? && NoNullLists(nodes.Keys) ==> r.error == Raise(PlainException, NO_CONNECTION_PREFIX + serviceKey))
        && (!r.WaitingForConnection? && NoNullLists(nodes.Keys) ==>
              (Reached(r) <==> exists p :: p in nodes && CountKey(Services(p), Some(serviceKey)) > 0))
        && (Reached(r) ==> (r.SendFailed? <==> write.WriteFailed?))
        && (r.SendFailed? ==> r.error == write.cause)
        && (r.Sent? ==> SentOn(r, InvokeRequest(m, args, version, requestId)))
      ensures forall h :: h in old(manager.connectedServerNodes.Values) && !(Reached(r) && h == r.handler) ==>
        h.pendingRPC == old(h.pendingRPC) && h.sent == old(h.sent)
      ensures Reached(r) ==> r.handler in old(manager.connectedServerNodes.Values)
      ensures forall h :: h in old(manager.connectedServerNodes.Values) && Reached(r) && h == r.handler ==>
        && requestId in h.pendingRPC && h.pendingRPC[requestId].request == InvokeRequest(m, args, version, requestId)
        && h.pendingRPC == old(h.pendingRPC)[requestId := h.pendingRPC[requestId]]
        && (r.Sent? ==> h.pendingRPC[requestId] == r.future)
        && h.sent == old(h.sent) + [InvokeRequest(m, args, version, requestId)]
    {
      if m.declaringClass == OBJECT_CLASS {
        return ObjectMethodAnswer(proxy, m, args);
      }
      var request := InvokeRequest(m, args, version, requestId);
      var serviceKey := MakeServiceKey(m.declaringClass, version);
      r := Dispatch(manager, serviceKey, Ok(request), draw, write);
      if r.Sent? {
        var got := r.future.Get();
        // get() blocks here: the fresh future is not done until its response arrives
      }
    }

    /**
     * call(funcName, args): the service key of the proxied interface is
     * routed first; then the request is built by createRequest and sent, and
     * its future returned at once. call(SerializableFunction, args) does the
     * same with the method name read off the lambda.
     */
    method Call(manager: ConnectionManager, funcName: string, args: Option<seq<Value>>,
                requestId: string, draw: nat, write: WriteOutcome) returns (r: ProxyOutcome)
      requires HandlersValid(manager)
      modifies manager.connectedServerNodes.Values`pendingRPC, manager.connectedServerNodes.Values`sent
      ensures HandlersValid(manager)
      ensures var nodes := manager.connectedServerNodes;
        var serviceKey := MakeServiceKey(className, version);
        && (r.WaitingForConnection? <==> manager.isRunning && |nodes| == 0)
        && !r.Answered? && !r.IdentityAnswer?
        && (Reached(r) ==> args.Some? && NoNullArgs(args.value))
        && (!r.WaitingForConnection? && NoNullLists(nodes.Keys) && (exists p :: p in nodes && CountKey(Services(p), Some(serviceKey)) > 0) ==>
              (Reached(r) <==> args.Some? && NoNullArgs(args.value)))
        && (Reached(r) ==> (r.SendFailed? <==> write.WriteFailed?))
        && (r.SendFailed? ==> r.error == write.cause)
        && (r.Sent? ==> r.future.Valid() && !r.future.IsDone() && BuiltFrom(r.future.request, className, funcName, args, version, requestId))
      ensures forall h :: h in old(manager.connectedServerNodes.Values) && !(Reached(r) && h == r.handler) ==>
        h.pendingRPC == old(h.pendingRPC) && h.sent == old(h.sent)
      ensures Reached(r) ==> r.handler in old(manager.connectedServerNodes.Values)
      ensures forall h :: h in old(manager.connectedServerNodes.Values) && Reached(r) && h == r.handler ==>
        && requestId in h.pendingRPC && BuiltFrom(h.pendingRPC[requestId].request, className, funcName, args, version, requestId)
        && h.pendingRPC == old(h.pendingRPC)[requestId := h.pendingRPC[requestId]]
        && (r.Sent? ==> h.pendingRPC[requestId] == r.future)
        && h.sent == old(h.sent) + [h.pendingRPC[requestId].request]
    {
      var serviceKey := MakeServiceKey(className, version);
      var request := CreateRequest(className, funcName, args, requestId);
      r := Dispatch(manager, serviceKey, request, draw, write);
    }

    /**
     * createRequest: a fresh id, the given class and method name, the
     * arguments and the proxy's version; parameterTypes is filled with the
     * runtime class of each argument. A null argument array, or a null
     * argument, throws a NullPointerException.
     */
    method CreateRequest(className: string, methodName: string, args: Option<seq<Value>>, requestId: string)
      returns (r: Result<RpcRequest, Throwable>)
      ensures r.Ok? <==> args.Some? && NoNullArgs(args.value)
      ensures r.Err? ==> r.error == NULL_POINTER
      ensures r.Ok? ==> BuiltFrom(r.value, className, methodName, args, version, requestId)
    {
      var request := EMPTY_REQUEST
        .(requestId := Some(requestId))
        .(className := Some(className))
        .(methodName := Some(methodName))
        .(parameters := args)
        .(version := version);
      if args.None? {
        return Err(NULL_POINTER);   // args.length
      }
      var a := args.value;
      var parameterTypes := new string[|a|];
      for i := 0 to |a|
        invariant forall j :: 0 <= j < i ==> ClassOf(a[j]) == Ok(parameterTypes[j])
      {
        var classType := ClassOf(a[i]);
        if classType.Err? {
          return Err(classType.error);
        }
        parameterTypes[i] := classType.value;
      }
      r := Ok(request.(parameterTypes := Some(parameterTypes[..])));
    }
  }

  /**
   * `request` is what createRequest builds: the given id, class, method name,
   * arguments and version, and one parameter type per argument, the runtime
   * class of that argument.
   */
  predicate BuiltFrom(request: RpcRequest, className: string, methodName: string, args: Option<seq<Value>>,
                      version: JString, requestId: string) {
    && args.Some? && request.parameterTypes.Some?
    && request == RpcRequest(Some(requestId), Some(className), Some(methodName), request.parameterTypes, args, version)
    && |request.parameterTypes.value| == |args.value|
    && forall i :: 0 <= i < |args.value| ==> ClassOf(args.value[i]) == Ok(request.parameterTypes.value[i])
  }

  /** A sent outcome: a not yet done future for `request`. */
  ghost predicate SentOn(r: ProxyOutcome, request: RpcRequest)
    requires r.Sent?
    reads r.future
  {
    r.future.Valid() && !r.future.IsDone() && r.future.request == request
  }

  /**
   * The common tail of invoke and call: choose a connection for the key,
   * then (when the request could be built) send it on that connection.
   */
  method Dispatch(manager: ConnectionManager, serviceKey: string, request: Result<RpcRequest, Throwable>,
                  draw: nat, write: WriteOutcome) returns (r: ProxyOutcome)
    requires HandlersValid(manager)
    requires request.Ok? ==> request.value.requestId.Some?
    modifies manager.connectedServerNodes.Values`pendingRPC, manager.connectedServerNodes.Values`sent
    ensures HandlersValid(manager)
    ensures var nodes := manager.connectedServerNodes;
      && (r.WaitingForConnection? <==> manager.isRunning && |nodes| == 0)
      && !r.Answered? && !r.IdentityAnswer?
      && (Reached(r) ==> request.Ok? && ServesKey(nodes, serviceKey, r.handler))
      && (Reached(r) ==> (r.SendFailed? <==> write.WriteFailed?))
      && (r.SendFailed? ==> r.error == write.cause)
      && (r.Sent? ==> fresh(r.future) && SentOn(r, request.value))
      && (r.Threw? && request.Ok? && NoNullLists(nodes.Keys) ==> r.error == Raise(PlainException, NO_CONNECTION_PREFIX + serviceKey))
      && (!r.WaitingForConnection? && NoNullLists(nodes.Keys) ==>
            (Reached(r) <==> request.Ok? && exists p :: p in nodes && CountKey(Services(p), Some(serviceKey)) > 0))
    ensures forall h :: h in old(manager.connectedServerNodes.Values) && !(Reached(r) && h == r.handler) ==>
      h.pendingRPC == old(h.pendingRPC) && h.sent == old(h.sent)
    ensures Reached(r) ==> r.handler in old(manager.connectedServerNodes.Values)
    ensures forall h :: h in old(manager.connectedServerNodes.Values) && Reached(r) && h == r.handler ==>
      var id := request.value.requestId.value;
      && id in h.pendingRPC && fresh(h.pendingRPC[id]) && h.pendingRPC[id].request == request.value
      && h.pendingRPC == old(h.pendingRPC)[id := h.pendingRPC[id]]
      && (r.Sent? ==> h.pendingRPC[id] == r.future)
      && h.sent == old(h.sent) + [request.value]
  {
    var chosen := manager.ChooseHandler(serviceKey, draw);
    match chosen {
      case Waiting =>
        return WaitingForConnection;
      case Rejected(e) =>
        return Threw(e);
      case Chosen(handler) =>
        if request.Err? {
          return Threw(request.error);
        }
        var sent := handler.SendRequest(request.value, write);
        match sent {
          case Ok(future) => r := Sent(handler, future);
          case Err(e) => r := SendFailed(handler, e);
        }
    }
  }
}
