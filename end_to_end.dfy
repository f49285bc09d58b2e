/**
 * Properties that span client and server: the key a proxy routes on is the
 * key a V2 server stores and looks its bean up under, and the descriptor a
 * server registers advertises exactly the keys its clients route on.
 */
module EndToEnd {
  import opened Wrappers
  import opened JavaLang
  import opened Entities
  import opened ServiceUtil
  import opened Protocol
  import opened LoadBalance
  import opened Proxy
  import opened ServerHandler
  import opened Registry

  /** A bean added under (interface, version) is the bean the V2 server finds for a proxied call of that interface at that version. */
  lemma InvokeFindsAddedBean(serviceMap: map<string, Value>, m: JMethod, version: JString, bean: Value,
                             args: Option<seq<Value>>, requestId: string)
    ensures var table := serviceMap[MakeServiceKey(m.declaringClass, version) := bean];
            Bean(table, LookupKey(InvokeRequest(m, args, version, requestId))) == bean
  {
  }

  /**
   * As written, a proxied call of a method without parameters never reaches
   * a registered V2 service: Java passes a null argument array to invoke,
   * the request carries it, and handle's logging dereferences it. The
   * response reports a NullPointerException whatever the service would do.
   */
  lemma NoArgumentCallFails(serviceMap: map<string, Value>, m: JMethod, version: JString, bean: Value,
                            requestId: string, invoke: Invoker)
    requires |m.parameterTypes| == 0 && bean != Null
    ensures var table := serviceMap[MakeServiceKey(m.declaringClass, version) := bean];
            var request := InvokeRequest(m, None, version, requestId);
            ResponseFor(request, HandleOutcome(table, request, invoke)) == RpcResponse(Some(requestId), Some(NULL_POINTER), Null)
  {
    var table := serviceMap[MakeServiceKey(m.declaringClass, version) := bean];
    InvokeFindsAddedBean(serviceMap, m, version, bean, None, requestId);
    NullArgumentsNeverReachService(table, InvokeRequest(m, None, version, requestId), invoke);
  }

  /** With the corrected handle the same call reaches the service, and the response carries its outcome. */
  lemma NoArgumentCallIntended(serviceMap: map<string, Value>, m: JMethod, version: JString, bean: Value,
                               requestId: string, invoke: Invoker)
    requires |m.parameterTypes| == 0 && bean != Null
    ensures var table := serviceMap[MakeServiceKey(m.declaringClass, version) := bean];
            var request := InvokeRequest(m, None, version, requestId);
            var called := invoke(bean, request);
            && (called.Ok? ==> ResponseFor(request, HandleIntended(table, request, invoke)) == RpcResponse(Some(requestId), None, called.value))
            && (called.Err? ==> ResponseFor(request, HandleIntended(table, request, invoke)) == RpcResponse(Some(requestId), Some(called.error), Null))
  {
    var table := serviceMap[MakeServiceKey(m.declaringClass, version) := bean];
    InvokeFindsAddedBean(serviceMap, m, version, bean, None, requestId);
    IntendedHandleReachesService(table, InvokeRequest(m, None, version, requestId), invoke);
  }

  /**
   * A server holding a service under makeServiceKey(name, version) registers
   * a descriptor that advertises that very key, so a client's router can
   * pick it for calls to that service (names and versions without '#').
   */
  lemma RegisteredServiceRoutable(host: string, port: Int32, keys: seq<string>, name: string, version: JString)
    requires SEPARATOR !in name
    requires version.Some? ==> SEPARATOR !in version.value
    requires MakeServiceKey(name, version) in keys
    ensures CountKey(Services(RpcProtocol(Some(host), port, Some(ParsedInfos(keys)))), Some(MakeServiceKey(name, version))) > 0
  {
    var key := MakeServiceKey(name, version);
    ParseServiceKeyRoundTrip(name, version);
    var info := ParseServiceKey(key).value;
    var k :| 0 <= k < |keys| && keys[k] == key;
    var infos := ParsedInfos(keys);
    assert info in infos;
    var i :| 0 <= i < |infos| && infos[i] == info;
    CountKeyPositive(infos, Some(key));
  }
}
