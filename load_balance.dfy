/**
 * RpcLoadBalance and RpcLoadBalanceRandom: the connected descriptors are
 * grouped by the service keys they advertise, and a call for one key is
 * routed to one member of that key's group.
 */
module LoadBalance {
  import opened Wrappers
  import opened JavaLang
  import opened ServiceUtil
  import opened Protocol

  /** The services a descriptor advertises; a null list advertises none. */
  function Services(p: RpcProtocol): seq<RpcServiceInfo> {
    if p.serviceInfoList.Some? then p.serviceInfoList.value else []
  }

  /** How many entries of `infos` advertise `key`. */
  function CountKey(infos: seq<RpcServiceInfo>, key: JString): nat
    decreases |infos|
  {
    if |infos| == 0 then 0
    else CountKey(infos[..|infos| - 1], key) + (if InfoKey(infos[|infos| - 1]) == key then 1 else 0)
  }

  /** A descriptor counts `key` exactly when one of its services has that key. */
  lemma {:induction false} CountKeyPositive(infos: seq<RpcServiceInfo>, key: JString)
    ensures CountKey(infos, key) > 0 <==> exists i :: 0 <= i < |infos| && InfoKey(infos[i]) == key
  {
    if exists i :: 0 <= i < |infos| && InfoKey(infos[i]) == key {
      var i :| 0 <= i < |infos| && InfoKey(infos[i]) == key;
      CountKeyOfMember(infos, key, i);
    }
    if CountKey(infos, key) > 0 {
      var i := CountedWitness(infos, key);
    }
  }

  /** A positive count has a witness. */
  lemma {:induction false} CountedWitness(infos: seq<RpcServiceInfo>, key: JString) returns (i: nat)
    requires CountKey(infos, key) > 0
    ensures i < |infos| && InfoKey(infos[i]) == key
    decreases |infos|
  {
    var init := infos[..|infos| - 1];
    if InfoKey(infos[|infos| - 1]) == key {
      i := |infos| - 1;
    } else {
      i := CountedWitness(init, key);
      assert infos[i] == init[i];
    }
  }

  /** A member with the key is counted. */
  lemma {:induction false} CountKeyOfMember(infos: seq<RpcServiceInfo>, key: JString, i: nat)
    requires i < |infos| && InfoKey(infos[i]) == key
    ensures CountKey(infos, key) > 0
    decreases |infos|
  {
    var init := infos[..|infos| - 1];
    if i < |infos| - 1 {
      assert infos[i] == init[i];
      CountKeyOfMember(init, key, i);
    }
  }

  /** The descriptors of a possibly null map. */
  function Nodes<H>(connectedServerNodes: Option<map<RpcProtocol, H>>): set<RpcProtocol> {
    if connectedServerNodes.Some? then connectedServerNodes.value.Keys else {}
  }

  /** Every descriptor of the map has a (non-null) service list. */
  predicate NoNullLists(nodes: set<RpcProtocol>) {
    forall p :: p in nodes ==> p.serviceInfoList.Some?
  }

  /** How often `q` appears in the group of `key`; 0 when the key has no group. */
  function Listed(serviceMap: map<JString, seq<RpcProtocol>>, key: JString, q: RpcProtocol): nat {
    if key in serviceMap then multiset(serviceMap[key])[q] else 0
  }

  /**
   * serviceMap groups `nodes` by service key: under each key, each descriptor
   * appears once per service of its own with that key, and no group is empty.
   */
  ghost predicate Groups(serviceMap: map<JString, seq<RpcProtocol>>, nodes: set<RpcProtocol>) {
    && (forall key, q :: Listed(serviceMap, key, q) == if q in nodes then CountKey(Services(q), key) else 0)
    && (forall key :: key in serviceMap ==> |serviceMap[key]| > 0)
  }

  /** Groups, part-way: the descriptors in `finished` fully, and `current` for its services in `prefix`. */
  ghost predicate GroupsSoFar(serviceMap: map<JString, seq<RpcProtocol>>, finished: set<RpcProtocol>,
                              current: RpcProtocol, prefix: seq<RpcServiceInfo>) {
    && (forall key, q :: Listed(serviceMap, key, q)
          == (if q in finished then CountKey(Services(q), key) else 0) + (if q == current then CountKey(prefix, key) else 0))
    && (forall key :: key in serviceMap ==> |serviceMap[key]| > 0)
  }

  /** Appending one service to the count of a prefix. */
  lemma CountKeyAppend(prefix: seq<RpcServiceInfo>, info: RpcServiceInfo, key: JString)
    ensures CountKey(prefix + [info], key) == CountKey(prefix, key) + (if InfoKey(info) == key then 1 else 0)
  {
    assert (prefix + [info])[..|prefix|] == prefix;
  }

  /** A descriptor not yet grouped starts with an empty prefix. */
  lemma GroupsSoFarStart(serviceMap: map<JString, seq<RpcProtocol>>, finished: set<RpcProtocol>, current: RpcProtocol)
    requires Groups(serviceMap, finished)
    ensures GroupsSoFar(serviceMap, finished, current, [])
  {
  }

  /** Listing `current` once more under the key of its next service. */
  lemma GroupsSoFarStep(serviceMap: map<JString, seq<RpcProtocol>>, finished: set<RpcProtocol>,
                        current: RpcProtocol, prefix: seq<RpcServiceInfo>, info: RpcServiceInfo)
    requires GroupsSoFar(serviceMap, finished, current, prefix)
    ensures var k := InfoKey(info);
      GroupsSoFar(serviceMap[k := (if k in serviceMap then serviceMap[k] else []) + [current]], finished, current, prefix + [info])
  {
    var k := InfoKey(info);
    var after := serviceMap[k := (if k in serviceMap then serviceMap[k] else []) + [current]];
    forall key, q
      ensures Listed(after, key, q)
           == (if q in finished then CountKey(Services(q), key) else 0) + (if q == current then CountKey(prefix + [info], key) else 0)
    {
      CountKeyAppend(prefix, info, key);
      assert Listed(serviceMap, key, q)
          == (if q in finished then CountKey(Services(q), key) else 0) + (if q == current then CountKey(prefix, key) else 0);
    }
  }

  /** Once all of its services are listed, `current` is fully grouped. */
  lemma GroupsSoFarFinish(serviceMap: map<JString, seq<RpcProtocol>>, finished: set<RpcProtocol>, current: RpcProtocol)
    requires current !in finished
    requires GroupsSoFar(serviceMap, finished, current, Services(current))
    ensures Groups(serviceMap, finished + {current})
  {
    forall key, q
      ensures Listed(serviceMap, key, q) == if q in finished + {current} then CountKey(Services(q), key) else 0
    {
      assert Listed(serviceMap, key, q)
          == (if q in finished then CountKey(Services(q), key) else 0) + (if q == current then CountKey(Services(current), key) else 0);
    }
  }

  /** A key's group holds exactly the descriptors of `nodes` that advertise that key. */
  lemma GroupMembers(serviceMap: map<JString, seq<RpcProtocol>>, nodes: set<RpcProtocol>, key: JString, q: RpcProtocol)
    requires Groups(serviceMap, nodes)
    ensures (key in serviceMap && q in serviceMap[key])
        <==> (q in nodes && exists i :: 0 <= i < |Services(q)| && InfoKey(Services(q)[i]) == key)
  {
    CountKeyPositive(Services(q), key);
    assert Listed(serviceMap, key, q) == if q in nodes then CountKey(Services(q), key) else 0;
  }

  /** The inner loop of getServiceMap: `current` is listed under the key of each of its services, in order. */
  method AddServices(serviceMap: map<JString, seq<RpcProtocol>>, ghost finished: set<RpcProtocol>, current: RpcProtocol)
    returns (after: map<JString, seq<RpcProtocol>>)
    requires current.serviceInfoList.Some?
    requires GroupsSoFar(serviceMap, finished, current, [])
    ensures GroupsSoFar(after, finished, current, Services(current))
  {
    var infos := current.serviceInfoList.value;
    after := serviceMap;
    assert infos[..0] == [];
    for j := 0 to |infos|
      invariant GroupsSoFar(after, finished, current, infos[..j])
    {
      var serviceKey := InfoKey(infos[j]);
      var rpcProtocolList := if serviceKey in after then after[serviceKey] else [];
      rpcProtocolList := rpcProtocolList + [current];
      GroupsSoFarStep(after, finished, current, infos[..j], infos[j]);
      assert infos[..j + 1] == infos[..j] + [infos[j]];
      after := after[serviceKey := rpcProtocolList];
    }
    assert infos[..|infos|] == Services(current);
  }

  /**
   * getServiceMap: an empty map for a null or empty input; otherwise each
   * connected descriptor is listed under the key of every service it
   * advertises. A descriptor with a null service list makes the loop throw.
   * The input map is only read. The order inside a group follows the map's
   * iteration order and is left open.
   */
  method GetServiceMap<H>(connectedServerNodes: Option<map<RpcProtocol, H>>) returns (r: Result<map<JString, seq<RpcProtocol>>, Throwable>)
    ensures r.Ok? <==> NoNullLists(Nodes(connectedServerNodes))
    ensures r.Err? ==> r.error == NULL_POINTER
    ensures r.Ok? ==> Groups(r.value, Nodes(connectedServerNodes))
    ensures |Nodes(connectedServerNodes)| == 0 ==> r == Ok(map[])
  {
    var serviceMap: map<JString, seq<RpcProtocol>> := map[];
    if connectedServerNodes.Some? && |connectedServerNodes.value| > 0 {
      var remaining := connectedServerNodes.value.Keys;
      ghost var finished: set<RpcProtocol> := {};
      while remaining != {}
        invariant remaining + finished == connectedServerNodes.value.Keys && remaining !! finished
        invariant NoNullLists(finished)
        invariant Groups(serviceMap, finished)
        decreases remaining
      {
        var rpcProtocol :| rpcProtocol in remaining;
        if rpcProtocol.serviceInfoList.None? {
          return Err(NULL_POINTER);
        }
        GroupsSoFarStart(serviceMap, finished, rpcProtocol);
        serviceMap := AddServices(serviceMap, finished, rpcProtocol);
        GroupsSoFarFinish(serviceMap, finished, rpcProtocol);
        remaining := remaining - {rpcProtocol};
        finished := finished + {rpcProtocol};
      }
    }
    return Ok(serviceMap);
  }

  /** Random.nextInt(size) with the random draw as a parameter; a non-positive bound is rejected. */
  function RandomIndex(draw: nat, size: int): (r: Result<nat, Throwable>)
    ensures r.Ok? <==> size > 0
    ensures r.Ok? ==> r.value < size
    ensures r.Err? ==> r.error == Raise(IllegalArgumentException, "bound must be positive")
  {
    if size <= 0 then Err(Raise(IllegalArgumentException, "bound must be positive")) else Ok(draw % size)
  }

  /** Every index below the bound is some draw's result. */
  lemma RandomIndexReachesAll(size: nat, i: nat)
    requires i < size
    ensures RandomIndex(i, size) == Ok(i)
  {
  }

  /** doRoute: the element at a random index; an empty list makes nextInt throw. */
  function DoRoute(addressList: seq<RpcProtocol>, draw: nat): (r: Result<RpcProtocol, Throwable>)
    ensures r.Ok? <==> |addressList| > 0
    ensures r.Ok? ==> r.value in addressList
    ensures |addressList| == 1 ==> r == Ok(addressList[0])
  {
    var index := RandomIndex(draw, |addressList|);
    if index.Err? then Err(index.error) else Ok(addressList[index.value])
  }

  /** Every member of a non-empty list is the route for some draw. */
  lemma DoRouteReachesAll(addressList: seq<RpcProtocol>, i: nat)
    requires i < |addressList|
    ensures DoRoute(addressList, i) == Ok(addressList[i])
  {
  }

  const NO_CONNECTION_PREFIX: string := "Can not find connection for service: "

  /** `p` is the only descriptor of `nodes` advertising `key`. */
  predicate SoleAdvertiser(nodes: set<RpcProtocol>, key: string, p: RpcProtocol) {
    && p in nodes && CountKey(Services(p), Some(key)) > 0
    && forall q :: q in nodes && CountKey(Services(q), Some(key)) > 0 ==> q == p
  }

  /** The group of a key is present and non-empty exactly when some descriptor advertises the key, and lists only such descriptors. */
  lemma GroupOfKey(serviceMap: map<JString, seq<RpcProtocol>>, nodes: set<RpcProtocol>, key: JString)
    requires Groups(serviceMap, nodes)
    ensures (key in serviceMap && |serviceMap[key]| > 0) <==> exists p :: p in nodes && CountKey(Services(p), key) > 0
    ensures key in serviceMap ==> forall q :: q in serviceMap[key] ==> q in nodes && CountKey(Services(q), key) > 0
  {
    if key in serviceMap {
      forall q | q in serviceMap[key]
        ensures q in nodes && CountKey(Services(q), key) > 0
      {
        assert Listed(serviceMap, key, q) > 0;
      }
      if |serviceMap[key]| > 0 {
        assert serviceMap[key][0] in serviceMap[key];
      }
    }
    if exists p :: p in nodes && CountKey(Services(p), key) > 0 {
      var p :| p in nodes && CountKey(Services(p), key) > 0;
      assert Listed(serviceMap, key, p) > 0;
    }
  }

  /**
   * route: a connected descriptor advertising the key, drawn from the key's
   * group; with no such descriptor, the "Can not find connection" exception.
   */
  method Route<H>(serviceKey: string, connectedServerNodes: Option<map<RpcProtocol, H>>, draw: nat) returns (r: Result<RpcProtocol, Throwable>)
    ensures r.Ok? ==> r.value in Nodes(connectedServerNodes) && CountKey(Services(r.value), Some(serviceKey)) > 0
    ensures !NoNullLists(Nodes(connectedServerNodes)) ==> r == Err(NULL_POINTER)
    ensures NoNullLists(Nodes(connectedServerNodes)) ==>
      (r.Ok? <==> exists p :: p in Nodes(connectedServerNodes) && CountKey(Services(p), Some(serviceKey)) > 0)
    ensures NoNullLists(Nodes(connectedServerNodes)) && r.Err? ==>
      r.error == Raise(PlainException, NO_CONNECTION_PREFIX + serviceKey)
    ensures NoNullLists(Nodes(connectedServerNodes)) ==>
      forall p :: SoleAdvertiser(Nodes(connectedServerNodes), serviceKey, p) ==> r == Ok(p)
  {
    var grouped := GetServiceMap(connectedServerNodes);
    if grouped.Err? {
      return Err(grouped.error);
    }
    var serviceMap := grouped.value;
    GroupOfKey(serviceMap, Nodes(connectedServerNodes), Some(serviceKey));
    if Some(serviceKey) in serviceMap && |serviceMap[Some(serviceKey)]| > 0 {
      var addressList := serviceMap[Some(serviceKey)];
      r := DoRoute(addressList, draw);
    } else {
      r := Err(Raise(PlainException, NO_CONNECTION_PREFIX + serviceKey));
    }
  }
}
