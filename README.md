# LightRpc in Dafny

A model of the core of LightRpc, a small Java RPC framework built on Netty and
ZooKeeper, with proofs about that model.

- **Servers** keep a table from service key to service bean. The key is
  `interface#version`, or the bare interface name when there is no version.
  A V2 server publishes one descriptor node (host, port, advertised services)
  in ZooKeeper and answers requests on long-lived connections. It drops
  heartbeat pings and closes idle channels.
- **V1 servers** look the bean up by interface name alone. They close the
  connection after every reply.
- **Clients** keep the set of known descriptors and the connected handlers
  (`ConnectionManager`). They group connected descriptors by service key and
  pick one at random (`RpcLoadBalanceRandom`).
- **Sending a request.** Each connection keeps a table of pending calls:
  request id to `RpcFuture` (`RpcClientHandler`). The dynamic proxy
  (`ObjectProxy`) builds a request and sends it over the chosen connection.
- **Completing a call.** A response completes the future with its id and runs
  the future's callbacks. Frames on the wire are a 4-byte big-endian length
  followed by the serialized body (`RpcEncoder` / `RpcDecoder`).

## Modules

The model has one module per core source file, plus three support modules.

| module | file | models |
|---|---|---|
| `Wrappers` | wrappers.dfy | `Option` and `Result`; `Outcome` stands for "returned normally or threw". |
| `JavaLang` | java_lang.dfy | The parts of `java.lang` the core relies on: exceptions, `int` wrap-around, `String.hashCode`, `Objects.hash`, `trim`, `split`, `Integer.parseInt`/`toString`, `equalsIgnoreCase`. |
| `Entities` | entities.dfy | `RpcRequest`, `RpcResponse`, the heartbeat constants and the value of an argument or result. |
| `ServiceUtil` | service_util.dfy | `makeServiceKey`. |
| `Protocol` | protocol.dfy | `RpcServiceInfo` and `RpcProtocol`, with `equals`, `hashCode` and `toString`. |
| `Codec` | codec.dfy | A Netty `ByteBuf` class, `RpcEncoder.encode` and `RpcDecoder.decode`. |
| `Future` | future.dfy | `RpcFuture` and its `Sync`. |
| `ClientHandler` | client_handler.dfy | `RpcClientHandler`. |
| `LoadBalance` | load_balance.dfy | `RpcLoadBalance.getServiceMap` and `RpcLoadBalanceRandom`. |
| `ConnectionManagement` | connection_manager.dfy | `ConnectionManager`. |
| `Proxy` | object_proxy.dfy | `ObjectProxy`. |
| `ServerHandler` | server_handler.dfy | `RpcServerHandler` (server V2). |
| `RpcHandlerV1` | rpc_handler.dfy | `RpcHandler` (server V1). |
| `NettyServerModel` | netty_server.dfy | `NettyServer.addService` and the address split in `start`. |
| `Registry` | service_registry.dfy | `ServiceRegistry` (server V2). |
| `DiscoveryV1` | discovery.dfy | `ServiceDiscovery.discover` (client V1). |
| `EndToEnd` | end_to_end.dfy | Properties that join the client and server sides. |

### How the Java is modelled

- **Mutable objects become classes.** Objects whose fields the Java updates
  are Dafny classes with those fields: `ByteBuf`, the encoder and decoder,
  `RpcFuture`, `RpcClientHandler`, `ConnectionManager`, `ObjectProxy`, both
  server handlers, `NettyServer` and `ServiceRegistry`. Their methods state
  the whole new state.
- **Java `null` becomes an `Option`.** A dereference of `null` is the error
  `NULL_POINTER`.
- **Effects become fields or parameters.** A channel write is recorded in a
  `sent` or `written` field. A close request sets `closing`. A task handed to
  a thread pool is recorded in `submitted`, `queued` or `connectTasks`.
- **Outside inputs become parameters.** These are:
  - random draws (`draw`, used as `draw % size`);
  - UUIDs (`requestId`);
  - the write outcome;
  - the sequence suffix ZooKeeper appends to a created node's path (`created`);
  - the serializers;
  - the reflective call of the service method (`Invoker`).

## Model

Source paths are relative to the repository root.

| member | source | states |
|---|---|---|
| ServiceUtil.MakeServiceKey | common/src/main/java/com/practise/common/utils/ServiceUtil.java:13-19 | The key always starts with the interface name. It is exactly the interface name iff the version is null or blank after trimming. |
| ServiceUtil.KeyWithoutVersion | common/src/main/java/com/practise/common/utils/ServiceUtil.java:14-18 | A null version, or one made only of characters up to U+0020, gives the bare interface name. |
| ServiceUtil.KeyWithVersion | common/src/main/java/com/practise/common/utils/ServiceUtil.java:11-16 | The token is the single character `#`. A version with any non-blank character is appended after one `#`, untrimmed. |
| ServiceUtil.KeyInjective | common/src/main/java/com/practise/common/utils/ServiceUtil.java:13-19 | For names without `#` and present versions, equal keys mean equal (name, version) pairs. |
| ServiceUtil.ServiceKey | common/src/main/java/com/practise/common/utils/ServiceUtil.java:13-19 | With a null interface name, the key is null iff the version is null or blank, and is "null#" + version otherwise. A non-null name gives makeServiceKey's key. |
| JavaLang.TrimEmptyIffAllSpace | common/src/main/java/com/practise/common/utils/ServiceUtil.java:15 | `version.trim().length() > 0` fails exactly when every character is at most U+0020. |
| JavaLang.SplitTwo | serverV2/src/main/java/com/practise/serverv2/registry/ServiceRegistry.java:56 | Splitting `a#b` (neither part holding the separator, b non-empty) gives exactly [a, b]. |
| JavaLang.ParseIntOfIntToString | serverV2/src/main/java/com/practise/serverv2/core/NettyServer.java:99 | `Integer.parseInt` reads back every 32-bit int written in decimal. |
| JavaLang.Utf16Units | common/src/main/java/com/practise/common/protocol/RpcServiceInfo.java:48 | A character is one UTF-16 unit up to U+FFFF, else a high and a low surrogate that recombine to the character, as String.hashCode sees it. |
| JavaLang.StringHashSurrogatePair | common/src/main/java/com/practise/common/protocol/RpcServiceInfo.java:48 | A character above U+FFFF hashes as its two surrogates: U+1F600 hashes to 1772899, not to its code point. |
| Protocol.InfoEquals | common/src/main/java/com/practise/common/protocol/RpcServiceInfo.java:37-44 | `equals` holds iff the other object is an RpcServiceInfo with null-safely equal name and version. This is the same as structural equality. |
| Protocol.InfoEqualsReflexive | common/src/main/java/com/practise/common/protocol/RpcServiceInfo.java:39-40 | `equals` is reflexive. It is false for null and for an object of another class. |
| Protocol.InfoEqualsSymmetricTransitive | common/src/main/java/com/practise/common/protocol/RpcServiceInfo.java:38-44 | `equals` is symmetric and transitive. |
| Protocol.EqualInfosHashEqual | common/src/main/java/com/practise/common/protocol/RpcServiceInfo.java:46-49 | Equal infos have equal hash codes. |
| Protocol.InfoHashCode | common/src/main/java/com/practise/common/protocol/RpcServiceInfo.java:46-49 | The hash is 31 * (31 * 1 + hash(name)) + hash(version) in 32-bit arithmetic, a null field hashing to 0; two null fields give 961. |
| Protocol.InfoKey | clientV2/src/main/java/com/practise/clientV2/route/RpcLoadBalance.java:27 | A service's key is makeServiceKey of its name and version; it is null iff the name is null and the version null or blank. |
| Protocol.InfoToString | common/src/main/java/com/practise/common/protocol/RpcServiceInfo.java:51-57 | The text is `RpcServiceInfo{serviceName='<name>', version='<version>'}`, piece by piece, with `null` for a null field. |
| Protocol.ProtocolEquals | common/src/main/java/com/practise/common/protocol/RpcProtocol.java:62-70 | `equals` holds iff the other object is an RpcProtocol with equal port, host and service list. This is the same as structural equality. |
| Protocol.ProtocolEqualsReflexive | common/src/main/java/com/practise/common/protocol/RpcProtocol.java:64-65 | `equals` is reflexive. It is false for null and for an object of another class. |
| Protocol.ServiceOrderMatters | common/src/main/java/com/practise/common/protocol/RpcProtocol.java:69 | The service list is compared in order: the same two services listed the other way round give unequal descriptors. |
| Protocol.EqualProtocolsHashEqual | common/src/main/java/com/practise/common/protocol/RpcProtocol.java:72-75 | Equal descriptors have equal hash codes. |
| Protocol.ProtocolHashCode | common/src/main/java/com/practise/common/protocol/RpcProtocol.java:72-75 | The hash is Objects.hash(host, port, list) in 32-bit arithmetic: 29791 + 961 * hash(host) + 31 * port + hash(list), a null list hashing to 0 and an empty one to 1. |
| Protocol.ProtocolHashCollision | common/src/main/java/com/practise/common/protocol/RpcProtocol.java:72-75 | Two different descriptors can share a hash code (hosts "Aa" and "BB"). |
| Codec.BytesToIntOfIntToBytes | common/src/main/java/com/practise/common/utils/RpcDecoder.java:47 | `readInt` reads back exactly the int that `writeInt` wrote, as four big-endian bytes. |
| Codec.EncodeOutput | common/src/main/java/com/practise/common/utils/RpcEncoder.java:35-54 | When the encoder throws, it has written nothing, and what it throws is the chosen serializer's failure. A configured serializer's failure escapes iff it is not an Exception (an Error or a bare Throwable passes `catch (Exception)`). |
| Codec.EncodeSkipsOtherClasses | common/src/main/java/com/practise/common/utils/RpcEncoder.java:36 | A message that is not an instance of `genericClass` writes nothing and throws nothing. |
| Codec.EncodeWritesOneFrame | common/src/main/java/com/practise/common/utils/RpcEncoder.java:37-48 | A successful encode appends exactly 4 + \|data\| bytes: a length prefix that reads back as \|data\|, then the serialized bytes. |
| Codec.EncodeFailureWritesNothing | common/src/main/java/com/practise/common/utils/RpcEncoder.java:45-51 | When serialization fails, nothing is written. The default serializer's failure always escapes; the configured serializer's escapes only when it is not an Exception, and is otherwise swallowed. |
| Codec.RpcEncoder.Encode | common/src/main/java/com/practise/common/utils/RpcEncoder.java:35-54 | The output buffer grows by exactly EncodeOutput's bytes, and the escaping exception is EncodeOutput's. |
| Codec.DecodeStep | common/src/main/java/com/practise/common/utils/RpcDecoder.java:40-74 | The reader index never passes the written bytes. A complete frame's result is what Deliver makes of its deserialized body. |
| Codec.DecodeWaitsForLength | common/src/main/java/com/practise/common/utils/RpcDecoder.java:42-44 | With fewer than 4 readable bytes, nothing is emitted and neither index moves. |
| Codec.DecodeWaitsForBody | common/src/main/java/com/practise/common/utils/RpcDecoder.java:45-55 | With an incomplete body, nothing is emitted and the reader returns to the start of the length prefix. |
| Codec.DecodeNegativeLength | common/src/main/java/com/practise/common/utils/RpcDecoder.java:48-57 | A negative length asks for a close but the decoder goes on: the reader is past the prefix and allocating the body throws NegativeArraySizeException. |
| Codec.DecodeConsumesOneFrame | common/src/main/java/com/practise/common/utils/RpcDecoder.java:57-71 | A complete frame consumes exactly 4 + L bytes and deserializes exactly its body. The output is Deliver's: the object, a dropped Exception with the configured serializer, or an escaping failure. |
| Codec.Deliver | common/src/main/java/com/practise/common/utils/RpcDecoder.java:59-71 | A non-null object is added to the output. A null object makes the output list throw NullPointerException("element"). A failed deserialization is dropped iff the serializer is configured and the failure is an Exception, and escapes otherwise. |
| Codec.DecodeOfEncode | common/src/main/java/com/practise/common/utils/RpcDecoder.java:52-67 | Round trip: an encoder frame, wherever it sits and whatever follows it, is consumed whole by one decode. The decode delivers deserialize(serialize(x)). |
| Codec.RpcDecoder.Decode | common/src/main/java/com/practise/common/utils/RpcDecoder.java:40-74 | The buffer's bytes are unchanged. The result, the new indices and the close request are DecodeStep's. |
| Future.TryRelease | clientV2/src/main/java/com/practise/clientV2/handler/RpcFuture.java:187-198 | A release always succeeds and leaves the state done, whether it was pending or already done. |
| Future.TryAcquire | clientV2/src/main/java/com/practise/clientV2/handler/RpcFuture.java:183-185 | Acquiring succeeds iff the state is done: never from pending, always from done. |
| Future.RunTask | clientV2/src/main/java/com/practise/clientV2/handler/RpcFuture.java:157-173 | A callback gets `success(result)` iff the response has no error. Otherwise it gets `fail` with a RuntimeException "Response error" that wraps the error. |
| Future.TasksFor | clientV2/src/main/java/com/practise/clientV2/handler/RpcFuture.java:118-127 | invokeCallbacks submits one task per queued callback, in list order, each with the same response. |
| Future.TimeoutMessage | clientV2/src/main/java/com/practise/clientV2/handler/RpcFuture.java:77-79 | The timeout message is the prefix, the id, the class part, the class name, the method part and the method name, in that order. |
| Future.RpcFuture.constructor | clientV2/src/main/java/com/practise/clientV2/handler/RpcFuture.java:34-38 | A new future is pending, with no response and no callbacks. |
| Future.RpcFuture.IsDone | clientV2/src/main/java/com/practise/clientV2/handler/RpcFuture.java:41-43 | The future is done iff a response has been stored. |
| Future.RpcFuture.Get | clientV2/src/main/java/com/practise/clientV2/handler/RpcFuture.java:46-53 | `get` blocks iff the future is not done. Otherwise it returns the response's result; a stored error is ignored. |
| Future.RpcFuture.GetWithTimeout | clientV2/src/main/java/com/practise/clientV2/handler/RpcFuture.java:68-81 | Returns the result iff the future is done. Otherwise it throws a RuntimeException carrying the timeout message. |
| Future.RpcFuture.Release | clientV2/src/main/java/com/practise/clientV2/handler/RpcFuture.java:188-198 | After a release the state is done. |
| Future.RpcFuture.RunCallback | clientV2/src/main/java/com/practise/clientV2/handler/RpcFuture.java:157-173 | Exactly one task is submitted: the callback with the current response. |
| Future.RpcFuture.InvokeCallbacks | clientV2/src/main/java/com/practise/clientV2/handler/RpcFuture.java:118-127 | Submits TasksFor(pendingCallbacks, response) and leaves the list as it is. |
| Future.RpcFuture.Done | clientV2/src/main/java/com/practise/clientV2/handler/RpcFuture.java:99-110 | Stores the response and marks the future done. Dispatches every queued callback in order and never clears the list. |
| Future.RpcFuture.AddCallback | clientV2/src/main/java/com/practise/clientV2/handler/RpcFuture.java:136-151 | If the future is already done, the callback is dispatched at once and the list is unchanged. Otherwise it is queued and nothing is dispatched. Returns the future itself. |
| Future.TasksReportResponse | clientV2/src/main/java/com/practise/clientV2/handler/RpcFuture.java:118-173 | Each queued callback's call reports that callback's outcome for the response: its result on success, a failure when the response has an error. |
| Future.DoneTwiceRedispatches | clientV2/src/main/java/com/practise/clientV2/handler/RpcFuture.java:99-123 | Completing a future twice dispatches every queued callback again: the tasks after the first completion's are one per callback, in order, each with the second response. |
| Future.DoneTwice | clientV2/src/main/java/com/practise/clientV2/handler/RpcFuture.java:99-110 | Two completions in a row leave the second response, keep the callback list, and submit the first response's tasks then the second's. |
| ClientHandler.RpcClientHandler.SendRequest | clientV2/src/main/java/com/practise/clientV2/handler/RpcClientHandler.java:74-91 | A fresh, pending future for the request is entered under its id, replacing any earlier entry and changing no other, and the request is written. A failed write rethrows its cause, and the entry stays. An interrupted wait still returns the future. A null id throws and changes nothing. |
| ClientHandler.RpcClientHandler.ChannelRead0 | clientV2/src/main/java/com/practise/clientV2/handler/RpcClientHandler.java:44-57 | A known id removes exactly that entry and completes its future with the response, dispatching its callbacks; no other future changes. An unknown id changes nothing. A null id throws. |
| ClientHandler.RpcClientHandler.UserEventTriggered | clientV2/src/main/java/com/practise/clientV2/handler/RpcClientHandler.java:101-109 | An idle event sends BEAT_PING and leaves a fresh pending entry under BEAT_PING_PONG. If that write fails, its cause is raised and the channel is closed. Any other event is forwarded and changes nothing. |
| ClientHandler.RpcClientHandler.ExceptionCaught | clientV2/src/main/java/com/practise/clientV2/handler/RpcClientHandler.java:59-63 | The channel is closed. |
| ClientHandler.RpcClientHandler.Close | clientV2/src/main/java/com/practise/clientV2/handler/RpcClientHandler.java:65-67 | The channel is closed. |
| ClientHandler.RpcClientHandler.SetRpcProtocol | clientV2/src/main/java/com/practise/clientV2/handler/RpcClientHandler.java:111-113 | The handler records its descriptor. |
| LoadBalance.CountKeyPositive | clientV2/src/main/java/com/practise/clientV2/route/RpcLoadBalance.java:26-27 | A descriptor counts a key iff one of its services has that key. |
| LoadBalance.GroupMembers | clientV2/src/main/java/com/practise/clientV2/route/RpcLoadBalance.java:22-38 | In a grouping, a descriptor is in a key's group iff it is connected and one of its services has that key. |
| LoadBalance.AddServices | clientV2/src/main/java/com/practise/clientV2/route/RpcLoadBalance.java:26-34 | The inner loop lists the descriptor once under the key of each of its services, in order. |
| LoadBalance.GetServiceMap | clientV2/src/main/java/com/practise/clientV2/route/RpcLoadBalance.java:22-38 | Succeeds iff no connected descriptor has a null service list, which would otherwise throw NullPointerException. The result groups every connected descriptor under each key it advertises. A null or empty map gives an empty grouping. |
| LoadBalance.RandomIndex | clientV2/src/main/java/com/practise/clientV2/route/RpcLoadBalanceRandom.java:24 | `nextInt(size)` is below `size`. A non-positive bound throws IllegalArgumentException. |
| LoadBalance.RandomIndexReachesAll | clientV2/src/main/java/com/practise/clientV2/route/RpcLoadBalanceRandom.java:24 | Every index below the bound is some draw's result. |
| LoadBalance.DoRoute | clientV2/src/main/java/com/practise/clientV2/route/RpcLoadBalanceRandom.java:21-25 | Succeeds iff the list is non-empty, and then returns one of its members. A list of one gives that member. |
| LoadBalance.DoRouteReachesAll | clientV2/src/main/java/com/practise/clientV2/route/RpcLoadBalanceRandom.java:21-25 | Every member of the list is chosen by some draw. |
| LoadBalance.GroupOfKey | clientV2/src/main/java/com/practise/clientV2/route/RpcLoadBalanceRandom.java:37-39 | A key's group is present and non-empty iff some connected descriptor advertises the key, and it lists only such descriptors. |
| LoadBalance.Route | clientV2/src/main/java/com/practise/clientV2/route/RpcLoadBalanceRandom.java:35-44 | The route is a connected descriptor advertising the key, and it exists iff one does. With none, the exception is "Can not find connection for service: " + key. A sole advertiser is always the route. A null service list throws NullPointerException. |
| ConnectionManagement.ConnectionManager.constructor | clientV2/src/main/java/com/practise/clientV2/connect/ConnectionManager.java:50-65 | A new manager is running, with no descriptors, no connections and no connect tasks. |
| ConnectionManagement.ConnectionManager.ConnectServerNode | clientV2/src/main/java/com/practise/clientV2/connect/ConnectionManager.java:147-159 | A descriptor with a null or empty service list is ignored. Otherwise it is added to the set at once. A connect task is submitted iff its host and port make a socket address; if they do not, the address check's IllegalArgumentException is thrown. |
| ConnectionManagement.ConnectionManager.ConnectSucceeded | clientV2/src/main/java/com/practise/clientV2/connect/ConnectionManager.java:172-181 | On success the map gets the handler under the descriptor, and the handler records its descriptor. |
| ConnectionManagement.ConnectionManager.RemoveAndCloseHandler | clientV2/src/main/java/com/practise/clientV2/connect/ConnectionManager.java:262-269 | The descriptor leaves the set and the map. Its handler, if it had one, is closed; no other handler changes. |
| ConnectionManagement.ConnectionManager.RemoveHandler | clientV2/src/main/java/com/practise/clientV2/connect/ConnectionManager.java:281-285 | The descriptor leaves the set and the map, and nothing is closed. |
| ConnectionManagement.ConnectionManager.ChannelInactive | clientV2/src/main/java/com/practise/clientV2/handler/RpcClientHandler.java:124-128 | The handler's descriptor is removed through removeHandler. A handler with no descriptor throws NullPointerException and changes nothing. |
| ConnectionManagement.ConnectionManager.UpdateConnectedServer | clientV2/src/main/java/com/practise/clientV2/connect/ConnectionManager.java:86-122 | Completes iff every new listed descriptor with services has a valid address. Then new descriptors are connected once each, known ones are not reconnected, and known ones missing from the list are closed and removed; a null or empty list removes them all. On a bad address it throws, nothing is removed, and only the descriptors handled before it were added. |
| ConnectionManagement.ConnectionManager.ConnectNewNodes | clientV2/src/main/java/com/practise/clientV2/connect/ConnectionManager.java:100-106 | Completes iff every new descriptor with services has a valid address. A connect task is submitted exactly for new descriptors with services and a valid address, once each. On a bad address it throws after adding that descriptor. |
| ConnectionManagement.ConnectionManager.RemoveAllExcept | clientV2/src/main/java/com/practise/clientV2/connect/ConnectionManager.java:108-120 | Every known descriptor outside the kept set leaves both collections, and exactly those descriptors' handlers are closed. |
| ConnectionManagement.ConnectionManager.UpdateConnectedServerEvent | clientV2/src/main/java/com/practise/clientV2/connect/ConnectionManager.java:125-140 | Throws iff the event is rejected or a connect meets a descriptor with services but no valid address. A null descriptor is ignored. ADDED of an unknown descriptor connects it. UPDATED closes, removes and reconnects. REMOVED closes and removes. Every other case throws "Unknow type:" + type and changes nothing, including ADDED of a known descriptor. |
| ConnectionManagement.ConnectionManager.ChooseHandler | clientV2/src/main/java/com/practise/clientV2/connect/ConnectionManager.java:230-253 | Keeps waiting iff the manager is running with no connection. A chosen handler is connected under a descriptor advertising the key, and one is chosen iff such a descriptor exists. Otherwise routing's exception is thrown. |
| ConnectionManagement.ConnectionManager.Stop | clientV2/src/main/java/com/practise/clientV2/connect/ConnectionManager.java:287-291 | The manager stops running. Every known descriptor is closed and removed. |
| ConnectionManagement.SocketAddressCheck | clientV2/src/main/java/com/practise/clientV2/connect/ConnectionManager.java:158 | An address is made iff the host is non-null and the port is in 0..65535. Otherwise IllegalArgumentException is thrown. |
| ConnectionManagement.EventActionAsWritten | clientV2/src/main/java/com/practise/clientV2/connect/ConnectionManager.java:125-140 | A null descriptor is ignored. An event is rejected iff its type is neither UPDATED nor REMOVED and it is not ADDED of an unknown descriptor. |
| ConnectionManagement.EventActionIntended | clientV2/src/main/java/com/practise/clientV2/connect/ConnectionManager.java:125-140 | The corrected decision never rejects an ADDED event, and agrees with the code on every other event. |
| ConnectionManagement.AddedOfKnownDescriptorRejected | clientV2/src/main/java/com/practise/clientV2/connect/ConnectionManager.java:129-138 | As written, ADDED for an already known descriptor is rejected with "Unknow type:CHILD_ADDED". |
| ConnectionManagement.IntendedAddedNeverRejected | clientV2/src/main/java/com/practise/clientV2/connect/ConnectionManager.java:129-130 | With the correction, ADDED connects an unknown descriptor and ignores a known one. |
| Proxy.ObjectMethodAnswer | clientV2/src/main/java/com/practise/clientV2/proxy/ObjectProxy.java:48-63 | `equals` answers true iff the argument is the proxy itself. `hashCode` and `toString` answer with the proxy's identity. Any other Object method throws IllegalStateException. Nothing is sent. |
| Proxy.ObjectProxy.constructor | clientV2/src/main/java/com/practise/clientV2/proxy/ObjectProxy.java:40-43 | The proxy keeps the interface and the version. |
| Proxy.ObjectProxy.Invoke | clientV2/src/main/java/com/practise/clientV2/proxy/ObjectProxy.java:46-89 | Object methods are answered locally. Any other call waits iff there is no connection, and reaches a server iff some connected descriptor advertises the method's service key. What is written is the request with the declaring interface, name, declared types, arguments and version. A failed write rethrows its cause. Only the chosen handler's table and channel change. |
| Proxy.ObjectProxy.Call | clientV2/src/main/java/com/practise/clientV2/proxy/ObjectProxy.java:91-107 | Routes on the proxied interface's key, then sends the request createRequest builds and returns its pending future. When a server for the key exists, the call reaches it iff the argument array and every argument are non-null. A failed write rethrows its cause. Only the chosen handler changes. |
| Proxy.ObjectProxy.CreateRequest | clientV2/src/main/java/com/practise/clientV2/proxy/ObjectProxy.java:109-136 | Succeeds iff the argument array and every argument are non-null; otherwise NullPointerException. The request carries the given id, class, method, arguments and version, and one parameter type per argument: that argument's runtime class. |
| Proxy.InvokeRequest | clientV2/src/main/java/com/practise/clientV2/proxy/ObjectProxy.java:65-71 | The request keys as makeServiceKey(declaring interface, version), and carries the given id, the method name, the declared types and the arguments. |
| Proxy.Dispatch | clientV2/src/main/java/com/practise/clientV2/proxy/ObjectProxy.java:84-88 | Waits iff there is no connection. A request that reaches a server goes out on a handler serving the key, with a fresh pending future; the call fails with the write's cause iff the write failed. Without a server for the key, routing's exception comes back. |
| ServerHandler.LookupKey | serverV2/src/main/java/com/practise/serverv2/core/RpcServerHandler.java:110-113 | The lookup key is makeServiceKey(className, version). It is null iff the class name is null and the version is null or blank; a null class name with a version gives "null#" + version. |
| ServerHandler.ResponseFor | serverV2/src/main/java/com/practise/serverv2/core/RpcServerHandler.java:70-81 | The response carries the request's id. It has the result when handle returned, and the Throwable with no result when handle threw. |
| ServerHandler.HandleOutcome | serverV2/src/main/java/com/practise/serverv2/core/RpcServerHandler.java:109-146 | A missing bean gives a null result. A bean with non-null types and arguments is invoked, and its result or exception is the outcome. A bean with a null argument array or argument gives NullPointerException. The outcome is the invocation's, a null result or NullPointerException. |
| ServerHandler.IsBeat | serverV2/src/main/java/com/practise/serverv2/core/RpcServerHandler.java:55 | A request is a heartbeat only if its id is present and as long as BEAT_PING_PONG; the id BEAT_PING_PONG itself always is. |
| ServerHandler.RpcServerHandler.constructor | serverV2/src/main/java/com/practise/serverv2/core/RpcServerHandler.java:32-35 | A new handler has the server's table and has queued and written nothing. |
| ServerHandler.RpcServerHandler.ChannelRead0 | serverV2/src/main/java/com/practise/serverv2/core/RpcServerHandler.java:50-64 | A request whose id equals BEAT_PING_PONG ignoring case is dropped. Any other request becomes one worker task. |
| ServerHandler.RpcServerHandler.Handle | serverV2/src/main/java/com/practise/serverv2/core/RpcServerHandler.java:109-146 | The step-by-step handle, debug loops included, returns or throws exactly what HandleOutcome says. |
| ServerHandler.RpcServerHandler.RunTask | serverV2/src/main/java/com/practise/serverv2/core/RpcServerHandler.java:66-95 | Exactly one response is written, built from handle's outcome. The channel stays open. |
| ServerHandler.RpcServerHandler.ExceptionCaught | serverV2/src/main/java/com/practise/serverv2/core/RpcServerHandler.java:148-152 | The channel is closed. |
| ServerHandler.RpcServerHandler.UserEventTriggered | serverV2/src/main/java/com/practise/serverv2/core/RpcServerHandler.java:160-169 | An idle event closes the channel. Any other event is forwarded. |
| ServerHandler.MissingServiceEmptyResponse | serverV2/src/main/java/com/practise/serverv2/core/RpcServerHandler.java:113-118 | A request for an unregistered service gets a response with neither result nor error. |
| ServerHandler.FoundServiceInvoked | serverV2/src/main/java/com/practise/serverv2/core/RpcServerHandler.java:120-145 | A registered bean with non-null types and arguments is invoked. The response reports exactly what the call returned or threw. |
| ServerHandler.NullArgumentsNeverReachService | serverV2/src/main/java/com/practise/serverv2/core/RpcServerHandler.java:127-132 | As written, a null argument array or a null argument makes the debug loop throw NullPointerException before the bean is called. |
| ServerHandler.BeatPingFiltered | serverV2/src/main/java/com/practise/serverv2/core/RpcServerHandler.java:55-59 | BEAT_PING's id, and its lower-case spelling, are recognised as heartbeats. |
| ServerHandler.OtherLengthNotBeat | serverV2/src/main/java/com/practise/serverv2/core/RpcServerHandler.java:55 | An id of any other length, such as a UUID, is never taken for a heartbeat. |
| ServerHandler.IntendedHandleReachesService | serverV2/src/main/java/com/practise/serverv2/core/RpcServerHandler.java:120-145 | With the corrected handle, every request for a registered bean reaches the bean. The response reports exactly what the call returned or threw. |
| ServerHandler.IntendedAgreesWhenPrintable | serverV2/src/main/java/com/practise/serverv2/core/RpcServerHandler.java:127-132 | The corrected handle agrees with the code on every request the debug loops can print. |
| RpcHandlerV1.HandleV1 | server/src/main/java/com/practise/rpc1/config/RpcHandler.java:76-94 | A missing or null bean, or a null class name, throws NullPointerException. Otherwise the bean under the class name is invoked; the version plays no part. |
| RpcHandlerV1.RpcHandler.ChannelRead0 | server/src/main/java/com/practise/rpc1/config/RpcHandler.java:40-66 | Every request, heartbeat or not, gets exactly one response with its id and handle's outcome. Then the channel is closed. |
| RpcHandlerV1.RpcHandler.ExceptionCaught | server/src/main/java/com/practise/rpc1/config/RpcHandler.java:96-100 | The channel is closed. |
| RpcHandlerV1.MissingBeanReportsError | server/src/main/java/com/practise/rpc1/config/RpcHandler.java:78-81 | A request for an unknown interface is answered with NullPointerException as its error. |
| NettyServerModel.NettyServer.AddService | serverV2/src/main/java/com/practise/serverv2/core/NettyServer.java:62-67 | The bean is stored under makeServiceKey(interface, version), replacing any earlier bean. No other entry changes. |
| NettyServerModel.ParseAddress | serverV2/src/main/java/com/practise/serverv2/core/NettyServer.java:97-99 | Succeeds only with at least two parts: host is part 0 and port is parseInt(part 1). Fewer parts throw ArrayIndexOutOfBoundsException. |
| NettyServerModel.ParseAddressRoundTrip | serverV2/src/main/java/com/practise/serverv2/core/NettyServer.java:97-99 | `host:port`, for a host without `:`, reads back as that host and port. |
| NettyServerModel.DistinctVersionsDistinctEntries | serverV2/src/main/java/com/practise/serverv2/core/NettyServer.java:62-67 | One interface added under two different versions occupies two entries, each holding its own bean. |
| Registry.ParsedInfos | serverV2/src/main/java/com/practise/serverv2/registry/ServiceRegistry.java:53-72 | Every key that parses contributes its info, and every info comes from some key. No key contributes more than one; ParsedInfosInKeyOrder gives the order. |
| Registry.ParseServiceKey | serverV2/src/main/java/com/practise/serverv2/registry/ServiceRegistry.java:56-66 | A parsed key gives a non-null name and version, neither holding `#`. A key without `#` gives that key as the name and an empty version. |
| Registry.ParsedInfosConcat | serverV2/src/main/java/com/practise/serverv2/registry/ServiceRegistry.java:54-72 | The infos of two runs of keys are the first run's infos followed by the second's. |
| Registry.ParsedInfosInKeyOrder | serverV2/src/main/java/com/practise/serverv2/registry/ServiceRegistry.java:54-72 | Each key contributes exactly its own parsed info at its own place: one info per parsing key, in key order. |
| Registry.NodePath | serverV2/src/main/java/com/practise/serverv2/registry/ServiceRegistry.java:84 | The path is `/rpcregistry/data-` followed by the descriptor's hashCode in decimal. |
| Registry.ServiceRegistry.constructor | serverV2/src/main/java/com/practise/serverv2/registry/ServiceRegistry.java:32-37 | A new registry has no paths, no deletes and is open. |
| Registry.ServiceRegistry.RegisterService | serverV2/src/main/java/com/practise/serverv2/registry/ServiceRegistry.java:51-91 | The descriptor is (host, port, the parsed infos), and its node is requested at NodePath. The created path, the requested path with ZooKeeper's sequence suffix, is recorded iff creation succeeds. A failure that is not an Exception escapes. |
| Registry.ServiceRegistry.UnregisterService | serverV2/src/main/java/com/practise/serverv2/registry/ServiceRegistry.java:108-118 | A delete is attempted for every recorded path in order, whatever became of earlier ones. Then the client is closed. |
| Registry.ParseServiceKeyRoundTrip | serverV2/src/main/java/com/practise/serverv2/registry/ServiceRegistry.java:56-66 | Parsing makeServiceKey(name, version) gives back the name and the version ("" when there was none), and that info keys as the original. |
| Registry.LoneSeparatorSkipped | serverV2/src/main/java/com/practise/serverv2/registry/ServiceRegistry.java:58-70 | The key `#` splits into no parts and is skipped. |
| Registry.ThreePartsLoseVersion | serverV2/src/main/java/com/practise/serverv2/registry/ServiceRegistry.java:61-66 | A key with three parts keeps part 0 as the name and gets an empty version. |
| Registry.EqualDescriptorsSamePath | serverV2/src/main/java/com/practise/serverv2/registry/ServiceRegistry.java:84 | Equal descriptors request the same node path. |
| DiscoveryV1.Discover | client/src/main/java/com/practise/client/ServiceDiscovery.java:55-70 | Null iff the list is empty. A single entry is returned as it is. Any result is a member of the list. |
| DiscoveryV1.DiscoverReachesAll | client/src/main/java/com/practise/client/ServiceDiscovery.java:63-66 | Every entry is chosen by some draw. |
| EndToEnd.InvokeFindsAddedBean | clientV2/src/main/java/com/practise/clientV2/proxy/ObjectProxy.java:65-71 | A bean added under (interface, version) is the bean the V2 server finds for a proxied call of that interface at that version. |
| EndToEnd.NoArgumentCallFails | serverV2/src/main/java/com/practise/serverv2/core/RpcServerHandler.java:130-132 | As written, a proxied call of a method with no parameters gets NullPointerException as its response, whatever the bean would do. |
| EndToEnd.NoArgumentCallIntended | serverV2/src/main/java/com/practise/serverv2/core/RpcServerHandler.java:120-145 | With the corrected handle, the same call reaches the bean, and the response reports what the bean returned or threw. |
| EndToEnd.RegisteredServiceRoutable | serverV2/src/main/java/com/practise/serverv2/registry/ServiceRegistry.java:53-79 | A server holding a service under makeServiceKey(name, version) publishes a descriptor that advertises that very key, so a client's route for that key can pick it. |

## Findings

| source | as written | input that shows it | evidently intended | confidence | as-written member | corrected member |
|---|---|---|---|---|---|---|
| clientV2/src/main/java/com/practise/clientV2/connect/ConnectionManager.java:129-138 | CHILD_ADDED is handled only for an unknown descriptor. ADDED for a known descriptor falls into the final `else` and throws IllegalArgumentException "Unknow type:CHILD_ADDED". | A second node with a descriptor equal to a known one, announced by CHILD_ADDED. This happens when the server re-registers on RECONNECTED while its first ephemeral node still lives (serverV2/src/main/java/com/practise/serverv2/registry/ServiceRegistry.java:94-101), or when a server restarts before its old node expires. | A repeated ADDED leaves the known descriptor as it is. | medium, not executed | ConnectionManagement.AddedOfKnownDescriptorRejected | ConnectionManagement.IntendedAddedNeverRejected |
| serverV2/src/main/java/com/practise/serverv2/core/RpcServerHandler.java:127-132 | The debug loops dereference `parameterTypes` and `parameters`, and call `toString` on each argument, whether or not debug logging is on. | A proxied call of a method with no parameters: Java hands `invoke` a null argument array, so the request's `parameters` is null. The response is then a NullPointerException. | Only the log lines depend on the arguments, and the service bean is invoked. | medium, not executed (assumes the serializer keeps the null array) | EndToEnd.NoArgumentCallFails | EndToEnd.NoArgumentCallIntended |

## Behaviour of the code worth knowing

The model follows the code in each of these cases.

- `RpcFuture.done` is not idempotent. The callback list is never cleared, so a second `done` replaces the response and dispatches every queued callback again (`Future.DoneTwiceRedispatches`).
- `chooseHandler` does not give up after one wait. It loops for as long as the manager runs with no connection. The model reports this state as `Waiting`.
- `RpcFuture.get` returns the response's result and ignores its error.
- Requested node paths are built from `hashCode`, so different descriptors can request the same path (`Protocol.ProtocolHashCollision`). ZooKeeper appends a sequence suffix, so the created paths still differ.
- A negative frame length asks for a close, but decoding goes on and throws NegativeArraySizeException.
- A null request id in `sendRequest`, or a null response id in `channelRead0`, throws NullPointerException from the concurrent map.
- A failed write in `sendRequest` is rethrown by `sync()`, so the `isSuccess()` check after it never sees a failure. The pending entry stays behind.

## Left out

- Netty's channels, pipelines, event loops and thread pools are left out. A write, a close or a submitted task is recorded as a field change. The threads are collapsed into single steps, so races between the connect listener, `chooseHandler` and the ZooKeeper callbacks are not modelled.
- ZooKeeper and Curator are left out. A created path is the requested path plus the `created` sequence suffix. Deletes are recorded, not performed. The reconnect listener that re-registers is not modelled.
- JSON serialization (`toJson`/`fromJson`) is left out. A failing `toJson` in `registerService` is folded into the `created` parameter; one in `updateConnectedServer`'s log line is not modelled.
- The Protostuff/Kryo serializers are a pair of function parameters.
- The reflective service call (FastClass) is the `Invoker` parameter.
- UUIDs, `Random` and `ThreadLocalRandom` are parameters. Clocks, the response-time warning and logging are left out.
- `Proxy.ObjectMethodAnswer`: the text of `hashCode` and `toString` on a proxy is reported only as `IdentityAnswer`, because object identity hashes cannot be modelled.
- `Proxy.ObjectProxy.Invoke`: the debug block's `args.length` on a null array is left out, because it runs only when debug logging is on.
- `Proxy.ObjectProxy.Invoke`: `get()` blocks until a response arrives. The model returns the sent future, which is pending.
- `Proxy.ObjectProxy.Call`: `call(SerializableFunction, ...)` is modelled as `Call` with the method name given. Resolving the lambda's name from its SerializedLambda is not modelled.
- `ConnectionManagement.ConnectionManager.ChooseHandler`: the 5-second waits and interrupts are collapsed into the `Waiting` outcome. The "Can not get available connection" branch cannot be reached without a concurrent removal, so it is never taken in the model.
- `ConnectionManagement.ConnectionManager.ConnectServerNode`: the connect attempt itself is a recorded task. Success is `ConnectSucceeded`; failure only logs and has no model.
- `ConnectionManagement.ConnectionManager.Stop`: shutting down the thread pool and the event loop group is left out.
- `RpcHandlerV1.RpcHandler.ChannelRead0`: the RuntimeMXBean process-name printing is left out.
- `NettyServerModel.ParseAddress`: the ArrayIndexOutOfBoundsException message follows the Java 9+ format. `start` only logs it.
- `JavaLang.EqualsIgnoreCase`: case folding is ASCII-only; Unicode case mappings are left out. `Integer.parseInt` accepts ASCII digits only.
- `Future.RpcFuture.Done`: `done(null)` is not modelled, because the response parameter is never null.
- The `RpcClientHandler` of a channel that never registered (a null channel) is not modelled.
- `Sync.tryRelease`'s failing compare-and-set needs a concurrent release, so it is not modelled.
- `Codec.EncodeOutput`: a serializer that returns a null byte array, which would throw NullPointerException at `data.length`, is not modelled; serializers return a byte sequence or fail.
- `Registry.ServiceRegistry.UnregisterService`: every failed delete is taken to be an Exception, so an Error escaping the loop is not modelled.
- `ConnectionManagement.ConnectionManager.ConnectServerNode`: a submit after the pool has shut down (RejectedExecutionException) is not modelled.
