/**
 * ConnectionManager: the client's registry of servers. It keeps the set of
 * known descriptors (rpcProtocolSet) and the map from descriptor to the
 * handler of its established connection (connectedServerNodes). A connection
 * is made in two steps: the descriptor is recorded and a connect task
 * submitted, and only when that connect succeeds does the map get the handler.
 * Nothing keeps the map's keys inside the set.
 */
module ConnectionManagement {
  import opened Wrappers
  import opened JavaLang
  import opened Protocol
  import opened ClientHandler
  import opened LoadBalance

  /** PathChildrenCacheEvent.Type. */
  datatype EventType =
    | ChildAdded | ChildUpdated | ChildRemoved
    | ConnectionSuspended | ConnectionReconnected | ConnectionLost | Initialized

  /** The enum constant's name, as string concatenation prints it (`null` for a null type). */
  function TypeName(t: Option<EventType>): string {
    match t
    case None => "null"
    case Some(ChildAdded) => "CHILD_ADDED"
    case Some(ChildUpdated) => "CHILD_UPDATED"
    case Some(ChildRemoved) => "CHILD_REMOVED"
    case Some(ConnectionSuspended) => "CONNECTION_SUSPENDED"
    case Some(ConnectionReconnected) => "CONNECTION_RECONNECTED"
    case Some(ConnectionLost) => "CONNECTION_LOST"
    case Some(Initialized) => "INITIALIZED"
  }

  const UNKNOWN_TYPE_PREFIX: string := "Unknow type:"
  const NO_AVAILABLE_CONNECTION: string := "Can not get available connection"

  /** The descriptors of a possibly null list, as the HashSet built from it. */
  function ListSet(serviceList: Option<seq<RpcProtocol>>): set<RpcProtocol> {
    if serviceList.Some? then set p | p in serviceList.value else {}
  }

  /** The handlers of the removed descriptors that had a connection: the ones that get closed. */
  ghost function ClosedHandlers(nodes: map<RpcProtocol, RpcClientHandler>, removed: set<RpcProtocol>): set<RpcClientHandler> {
    set p | p in removed && p in nodes :: nodes[p]
  }

  /**
   * `new InetSocketAddress(host, port)`: a null host is rejected first, then
   * a port outside 0..65535, each with an IllegalArgumentException.
   */
  function SocketAddressCheck(host: JString, port: Int32): (r: Outcome<Throwable>)
    ensures r.Pass? <==> host.Some? && 0 <= port <= 0xffff
    ensures r.Fail? ==> r.error.kind == IllegalArgumentException && r.error.cause.None?
  {
    if host.None? then Fail(Raise(IllegalArgumentException, "hostname can't be null"))
    else if port < 0 || port > 0xffff then Fail(Raise(IllegalArgumentException, "port out of range:" + IntToString(port)))
    else Pass
  }

  /** The descriptor's host and port make a socket address. */
  predicate ValidAddress(p: RpcProtocol) {
    SocketAddressCheck(p.host, p.port).Pass?
  }

  /** What chooseHandler does: keep waiting, return a handler, or throw. */
  datatype ChooseOutcome = Waiting | Chosen(handler: RpcClientHandler) | Rejected(error: Throwable)

  class ConnectionManager {
    var connectedServerNodes: map<RpcProtocol, RpcClientHandler>
    var rpcProtocolSet: set<RpcProtocol>
    var isRunning: bool
    /** The connect tasks submitted to the connect pool, in submission order. */
    var connectTasks: seq<RpcProtocol>

    constructor ()
      ensures connectedServerNodes == map[] && rpcProtocolSet == {} && isRunning && connectTasks == []
    {
      connectedServerNodes := map[];
      rpcProtocolSet := {};
      isRunning := true;
      connectTasks := [];
    }

    /**
     * connectServerNode: a descriptor without services is ignored; otherwise it
     * is recorded at once, and then its socket address is built. A null host
     * or a port outside 0..65535 throws there, leaving the descriptor recorded
     * and no task submitted; otherwise a connect task is submitted.
     */
    method ConnectServerNode(rpcProtocol: RpcProtocol) returns (r: Outcome<Throwable>)
      modifies this`rpcProtocolSet, this`connectTasks
      ensures !HasServices(rpcProtocol) ==>
        r == Pass && rpcProtocolSet == old(rpcProtocolSet) && connectTasks == old(connectTasks)
      ensures HasServices(rpcProtocol) ==>
        && r == SocketAddressCheck(rpcProtocol.host, rpcProtocol.port)
        && rpcProtocolSet == old(rpcProtocolSet) + {rpcProtocol}
        && connectTasks == old(connectTasks) + (if ValidAddress(rpcProtocol) then [rpcProtocol] else [])
    {
      if rpcProtocol.serviceInfoList.None? || |rpcProtocol.serviceInfoList.value| == 0 {
        return Pass;
      }
      rpcProtocolSet := rpcProtocolSet + {rpcProtocol};
      r := SocketAddressCheck(rpcProtocol.host, rpcProtocol.port);
      if r.Fail? {
        return;
      }
      connectTasks := connectTasks + [rpcProtocol];
    }

    /**
     * The connect listener on success: the handler of the new channel is put
     * in the map under the descriptor and told which descriptor it serves.
     * It runs whether or not the descriptor is still in the set.
     */
    method ConnectSucceeded(rpcProtocol: RpcProtocol, handler: RpcClientHandler)
      modifies this`connectedServerNodes, handler`rpcProtocol
      ensures connectedServerNodes == old(connectedServerNodes)[rpcProtocol := handler]
      ensures handler.rpcProtocol == Some(rpcProtocol)
    {
      connectedServerNodes := connectedServerNodes[rpcProtocol := handler];
      handler.SetRpcProtocol(rpcProtocol);
    }

    /** removeAndCloseHandler: the descriptor's handler, if any, is closed; the descriptor leaves both collections. */
    method RemoveAndCloseHandler(rpcProtocol: RpcProtocol)
      modifies this`connectedServerNodes, this`rpcProtocolSet, connectedServerNodes.Values`closing
      ensures connectedServerNodes == old(connectedServerNodes) - {rpcProtocol}
      ensures rpcProtocolSet == old(rpcProtocolSet) - {rpcProtocol}
      ensures forall h :: h in old(connectedServerNodes.Values) ==>
        h.closing == (old(h.closing) || h in ClosedHandlers(old(connectedServerNodes), {rpcProtocol}))
    {
      if rpcProtocol in connectedServerNodes {
        var handler := connectedServerNodes[rpcProtocol];
        handler.Close();
      }
      connectedServerNodes := connectedServerNodes - {rpcProtocol};
      rpcProtocolSet := rpcProtocolSet - {rpcProtocol};
    }

    /** removeHandler: the descriptor leaves both collections; nothing is closed. */
    method RemoveHandler(rpcProtocol: RpcProtocol)
      modifies this`connectedServerNodes, this`rpcProtocolSet
      ensures connectedServerNodes == old(connectedServerNodes) - {rpcProtocol}
      ensures rpcProtocolSet == old(rpcProtocolSet) - {rpcProtocol}
    {
      rpcProtocolSet := rpcProtocolSet - {rpcProtocol};
      connectedServerNodes := connectedServerNodes - {rpcProtocol};
    }

    /**
     * RpcClientHandler.channelInactive: the handler's descriptor is removed
     * through removeHandler. A handler whose descriptor was never set makes
     * the map's remove(null) throw, after the set's remove(null) did nothing.
     */
    method ChannelInactive(handler: RpcClientHandler) returns (r: Outcome<Throwable>)
      modifies this`connectedServerNodes, this`rpcProtocolSet
      ensures handler.rpcProtocol.None? ==>
        r == Fail(NULL_POINTER) && connectedServerNodes == old(connectedServerNodes) && rpcProtocolSet == old(rpcProtocolSet)
      ensures handler.rpcProtocol.Some? ==>
        && r == Pass
        && connectedServerNodes == old(connectedServerNodes) - {handler.rpcProtocol.value}
        && rpcProtocolSet == old(rpcProtocolSet) - {handler.rpcProtocol.value}
    {
      if handler.rpcProtocol.None? {
        return Fail(NULL_POINTER);
      }
      RemoveHandler(handler.rpcProtocol.value);
      r := Pass;
    }

    /**
     * updateConnectedServer(list): every listed descriptor not yet known is
     * connected (known ones are left alone), then every known descriptor not
     * in the list is closed and removed from both collections. A null or empty
     * list removes every known descriptor. Map entries whose descriptor is not
     * in the set are not touched. A new descriptor with services whose address
     * is invalid makes connectServerNode throw: the adding loop stops there,
     * the removal loop never runs, and the exception leaves the method.
     */
    method UpdateConnectedServer(serviceList: Option<seq<RpcProtocol>>) returns (r: Outcome<Throwable>)
      modifies this`rpcProtocolSet, this`connectedServerNodes, this`connectTasks, connectedServerNodes.Values`closing
      ensures r.Pass? <==> AllNewAddressesValid(ListSet(serviceList), old(rpcProtocolSet))
      ensures r.Pass? ==> var listed := ListSet(serviceList);
        rpcProtocolSet == set p | p in listed && (p in old(rpcProtocolSet) || HasServices(p))
      ensures r.Pass? ==> connectedServerNodes == old(connectedServerNodes) - (old(rpcProtocolSet) - ListSet(serviceList))
      ensures r.Pass? ==> forall h :: h in old(connectedServerNodes.Values) ==>
        h.closing == (old(h.closing) || h in ClosedHandlers(old(connectedServerNodes), old(rpcProtocolSet) - ListSet(serviceList)))
      ensures r.Fail? ==> AddingStopped(r, ListSet(serviceList), old(rpcProtocolSet), rpcProtocolSet)
      ensures r.Fail? ==> connectedServerNodes == old(connectedServerNodes)
                          && forall h :: h in old(connectedServerNodes.Values) ==> h.closing == old(h.closing)
      ensures |connectTasks| >= |old(connectTasks)| && connectTasks[..|old(connectTasks)|] == old(connectTasks)
      ensures forall p :: p in connectTasks[|old(connectTasks)|..]
                <==> p in rpcProtocolSet && p !in old(rpcProtocolSet) && ValidAddress(p)
      ensures forall p :: p in connectTasks[|old(connectTasks)|..] ==> p in ListSet(serviceList) && HasServices(p)
      ensures forall i, j :: |old(connectTasks)| <= i < j < |connectTasks| ==> connectTasks[i] != connectTasks[j]
    {
      var serviceSet := ListSet(serviceList);
      if serviceList.Some? && |serviceList.value| > 0 {
        r := ConnectNewNodes(serviceSet);
        if r.Fail? {
          return;
        }
      } else {
        r := Pass;
      }
      assert rpcProtocolSet - serviceSet == old(rpcProtocolSet) - serviceSet;
      // Close and remove invalid server nodes (all of them for a null or empty list)
      RemoveAllExcept(serviceSet);
      assert rpcProtocolSet == set p | p in serviceSet && (p in old(rpcProtocolSet) || HasServices(p));
    }

    /**
     * The adding loop of updateConnectedServer: each descriptor of the set
     * that is not yet known is connected, until one of them throws. The set's
     * iteration order is left open, so on a throw it is open which of the
     * other new descriptors were reached first.
     */
    method ConnectNewNodes(serviceSet: set<RpcProtocol>) returns (r: Outcome<Throwable>)
      modifies this`rpcProtocolSet, this`connectTasks
      ensures r.Pass? <==> AllNewAddressesValid(serviceSet, old(rpcProtocolSet))
      ensures r.Pass? ==> rpcProtocolSet == old(rpcProtocolSet) + set p | p in serviceSet && HasServices(p)
      ensures r.Fail? ==> AddingStopped(r, serviceSet, old(rpcProtocolSet), rpcProtocolSet)
      ensures |connectTasks| >= |old(connectTasks)| && connectTasks[..|old(connectTasks)|] == old(connectTasks)
      ensures forall p :: p in connectTasks[|old(connectTasks)|..]
                <==> p in rpcProtocolSet && p !in old(rpcProtocolSet) && ValidAddress(p)
      ensures forall p :: p in connectTasks[|old(connectTasks)|..] ==> p in serviceSet && HasServices(p)
      ensures forall i, j :: |old(connectTasks)| <= i < j < |connectTasks| ==> connectTasks[i] != connectTasks[j]
    {
      var toVisit := serviceSet;
      ghost var visited: set<RpcProtocol> := {};
      while toVisit != {}
        invariant toVisit + visited == serviceSet && toVisit !! visited
        invariant rpcProtocolSet == old(rpcProtocolSet) + set p | p in visited && HasServices(p)
        invariant AllNewAddressesValid(visited, old(rpcProtocolSet))
        invariant |connectTasks| >= |old(connectTasks)| && connectTasks[..|old(connectTasks)|] == old(connectTasks)
        invariant forall p :: p in connectTasks[|old(connectTasks)|..]
                    <==> p in visited && p !in old(rpcProtocolSet) && HasServices(p)
        invariant forall i, j :: |old(connectTasks)| <= i < j < |connectTasks| ==> connectTasks[i] != connectTasks[j]
        decreases toVisit
      {
        var rpcProtocol :| rpcProtocol in toVisit;
        ghost var tail := connectTasks[|old(connectTasks)|..];
        if rpcProtocol !in rpcProtocolSet {
          r := ConnectServerNode(rpcProtocol);
          if r.Fail? {
            assert rpcProtocol in rpcProtocolSet - old(rpcProtocolSet) && !ValidAddress(rpcProtocol);
            assert connectTasks == old(connectTasks) + tail;
            return;
          }
          assert connectTasks[|old(connectTasks)|..] == tail + if HasServices(rpcProtocol) then [rpcProtocol] else [];
        }
        toVisit := toVisit - {rpcProtocol};
        visited := visited + {rpcProtocol};
      }
      r := Pass;
    }

    /** The removal loop of updateConnectedServer and stop: every known descriptor outside `keep` is closed and removed. */
    method RemoveAllExcept(keep: set<RpcProtocol>)
      modifies this`rpcProtocolSet, this`connectedServerNodes, connectedServerNodes.Values`closing
      ensures rpcProtocolSet == old(rpcProtocolSet) * keep
      ensures connectedServerNodes == old(connectedServerNodes) - (old(rpcProtocolSet) - keep)
      ensures forall h :: h in old(connectedServerNodes.Values) ==>
        h.closing == (old(h.closing) || h in ClosedHandlers(old(connectedServerNodes), old(rpcProtocolSet) - keep))
    {
      var snapshot := rpcProtocolSet;
      var toVisit := snapshot;
      ghost var removed: set<RpcProtocol> := {};
      while toVisit != {}
        invariant toVisit <= snapshot && removed == (snapshot - toVisit) - keep
        invariant rpcProtocolSet == snapshot - removed
        invariant connectedServerNodes == old(connectedServerNodes) - removed
        invariant connectedServerNodes.Values <= old(connectedServerNodes.Values)
        invariant forall h :: h in old(connectedServerNodes.Values) ==>
          h.closing == (old(h.closing) || h in ClosedHandlers(old(connectedServerNodes), removed))
        decreases toVisit
      {
        var rpcProtocol :| rpcProtocol in toVisit;
        if rpcProtocol !in keep {
          RemoveAndCloseHandler(rpcProtocol);
          removed := removed + {rpcProtocol};
        }
        toVisit := toVisit - {rpcProtocol};
      }
    }

    /**
     * updateConnectedServer(descriptor, type): a null descriptor is ignored;
     * ADDED connects an unknown descriptor; UPDATED closes and removes, then
     * connects again; REMOVED closes and removes. Every other case throws
     * IllegalArgumentException, and that includes ADDED for a descriptor
     * already known. A connect whose address is invalid throws out of
     * connectServerNode, after the descriptor was recorded.
     */
    method UpdateConnectedServerEvent(rpcProtocol: Option<RpcProtocol>, eventType: Option<EventType>) returns (r: Outcome<Throwable>)
      modifies this`rpcProtocolSet, this`connectedServerNodes, this`connectTasks, connectedServerNodes.Values`closing
      ensures var action := EventActionAsWritten(rpcProtocol, rpcProtocol.Some? && rpcProtocol.value in old(rpcProtocolSet), eventType);
        r.Fail? <==> action == Reject
                     || ((action == Connect || action == Reconnect) && HasServices(rpcProtocol.value) && !ValidAddress(rpcProtocol.value))
      ensures rpcProtocol.None? ==> r == Pass && unchanged(this) && forall h :: h in old(connectedServerNodes.Values) ==> unchanged(h)
      ensures rpcProtocol.Some? && eventType == Some(ChildAdded) && rpcProtocol.value !in old(rpcProtocolSet) ==>
        var p := rpcProtocol.value;
        && r == (if HasServices(p) then SocketAddressCheck(p.host, p.port) else Pass)
        && connectedServerNodes == old(connectedServerNodes)
        && rpcProtocolSet == old(rpcProtocolSet) + (if HasServices(p) then {p} else {})
        && connectTasks == old(connectTasks) + (if HasServices(p) && ValidAddress(p) then [p] else [])
      ensures rpcProtocol.Some? && eventType == Some(ChildUpdated) ==>
        var p := rpcProtocol.value;
        && r == (if HasServices(p) then SocketAddressCheck(p.host, p.port) else Pass)
        && connectedServerNodes == old(connectedServerNodes) - {p}
        && rpcProtocolSet == (old(rpcProtocolSet) - {p}) + (if HasServices(p) then {p} else {})
        && connectTasks == old(connectTasks) + (if HasServices(p) && ValidAddress(p) then [p] else [])
        && (forall h :: h in old(connectedServerNodes.Values) ==>
              h.closing == (old(h.closing) || h in ClosedHandlers(old(connectedServerNodes), {p})))
      ensures rpcProtocol.Some? && eventType == Some(ChildRemoved) ==>
        && r == Pass
        && connectedServerNodes == old(connectedServerNodes) - {rpcProtocol.value}
        && rpcProtocolSet == old(rpcProtocolSet) - {rpcProtocol.value}
        && connectTasks == old(connectTasks)
        && (forall h :: h in old(connectedServerNodes.Values) ==>
              h.closing == (old(h.closing) || h in ClosedHandlers(old(connectedServerNodes), {rpcProtocol.value})))
      ensures rpcProtocol.Some? && eventType !in {Some(ChildUpdated), Some(ChildRemoved)}
              && !(eventType == Some(ChildAdded) && rpcProtocol.value !in old(rpcProtocolSet)) ==>
        r == Fail(Raise(IllegalArgumentException, UNKNOWN_TYPE_PREFIX + TypeName(eventType))) && unchanged(this)
        && forall h :: h in old(connectedServerNodes.Values) ==> unchanged(h)
    {
      if rpcProtocol.None? {
        return Pass;
      }
      var p := rpcProtocol.value;
      if eventType == Some(ChildAdded) && p !in rpcProtocolSet {
        r := ConnectServerNode(p);
      } else if eventType == Some(ChildUpdated) {
        RemoveAndCloseHandler(p);
        r := ConnectServerNode(p);
      } else if eventType == Some(ChildRemoved) {
        RemoveAndCloseHandler(p);
        r := Pass;
      } else {
        r := Fail(Raise(IllegalArgumentException, UNKNOWN_TYPE_PREFIX + TypeName(eventType)));
      }
    }

    /**
     * chooseHandler: while running with no connection it keeps waiting (each
     * wait ends after at most five seconds and the count is taken again, so it
     * returns only once a connection exists or the manager stops); then the
     * descriptor is routed for the key and its handler returned.
     */
    method ChooseHandler(serviceKey: string, draw: nat) returns (r: ChooseOutcome)
      ensures r.Waiting? <==> isRunning && |connectedServerNodes| == 0
      ensures r.Chosen? ==> exists p :: p in connectedServerNodes && connectedServerNodes[p] == r.handler
                                        && CountKey(Services(p), Some(serviceKey)) > 0
      ensures !r.Waiting? && NoNullLists(connectedServerNodes.Keys) ==>
        (r.Chosen? <==> exists p :: p in connectedServerNodes && CountKey(Services(p), Some(serviceKey)) > 0)
      ensures r.Rejected? && NoNullLists(connectedServerNodes.Keys) ==>
        r.error == Raise(PlainException, NO_CONNECTION_PREFIX + serviceKey)
      ensures r.Rejected? ==> r.error.message != Some(NO_AVAILABLE_CONNECTION)
    {
      var size := |connectedServerNodes|;
      if isRunning && size <= 0 {
        return Waiting;
      }
      var routed := Route(serviceKey, Some(connectedServerNodes), draw);
      if routed.Err? {
        return Rejected(routed.error);
      }
      var rpcProtocol := routed.value;
      if rpcProtocol in connectedServerNodes {
        var handler := connectedServerNodes[rpcProtocol];
        return Chosen(handler);
      }
      // unreachable here: the routed descriptor is a key of the map just read
      r := Rejected(Raise(PlainException, NO_AVAILABLE_CONNECTION));
    }

    /** stop: the manager stops running and every known descriptor is closed and removed. */
    method Stop()
      modifies this`isRunning, this`rpcProtocolSet, this`connectedServerNodes, connectedServerNodes.Values`closing
      ensures !isRunning && rpcProtocolSet == {}
      ensures connectedServerNodes == old(connectedServerNodes) - old(rpcProtocolSet)
      ensures forall h :: h in old(connectedServerNodes.Values) ==>
        h.closing == (old(h.closing) || h in ClosedHandlers(old(connectedServerNodes), old(rpcProtocolSet)))
    {
      isRunning := false;
      RemoveAllExcept({});
    }
  }

  /** Every descriptor of `serviceSet` that is new and has services has a valid address. */
  predicate AllNewAddressesValid(serviceSet: set<RpcProtocol>, known: set<RpcProtocol>) {
    forall p :: p in serviceSet && p !in known && HasServices(p) ==> ValidAddress(p)
  }

  /**
   * The state the adding loop leaves when it throws: some of the set's new
   * descriptors with services were recorded, exactly one of them with an
   * invalid address, and the exception is that address's.
   */
  predicate AddingStopped(r: Outcome<Throwable>, serviceSet: set<RpcProtocol>, known: set<RpcProtocol>, after: set<RpcProtocol>) {
    && known <= after
    && (forall p :: p in after && p !in known ==> p in serviceSet && HasServices(p))
    && (exists bad :: bad in after && bad !in known && !ValidAddress(bad) && r == SocketAddressCheck(bad.host, bad.port)
                      && forall q :: q in after && q !in known && q != bad ==> ValidAddress(q))
  }

  /** What the incremental update does with one event. */
  datatype EventAction = Connect | Reconnect | Remove | Ignore | Reject

  /** The incremental update's decision as written: ADDED is handled only for an unknown descriptor; anything unhandled is rejected. */
  function EventActionAsWritten(rpcProtocol: Option<RpcProtocol>, known: bool, eventType: Option<EventType>): (a: EventAction)
    ensures a == Ignore <==> rpcProtocol.None?
    ensures a == Reject <==> rpcProtocol.Some? && eventType !in {Some(ChildUpdated), Some(ChildRemoved)}
                             && !(eventType == Some(ChildAdded) && !known)
  {
    if rpcProtocol.None? then Ignore
    else if eventType == Some(ChildAdded) && !known then Connect
    else if eventType == Some(ChildUpdated) then Reconnect
    else if eventType == Some(ChildRemoved) then Remove
    else Reject
  }

  /** The evidently intended decision: ADDED for a descriptor already known leaves it as it is. */
  function EventActionIntended(rpcProtocol: Option<RpcProtocol>, known: bool, eventType: Option<EventType>): (a: EventAction)
    ensures eventType == Some(ChildAdded) ==> a != Reject
    ensures !(rpcProtocol.Some? && known && eventType == Some(ChildAdded)) ==> a == EventActionAsWritten(rpcProtocol, known, eventType)
  {
    if rpcProtocol.Some? && known && eventType == Some(ChildAdded) then Ignore
    else EventActionAsWritten(rpcProtocol, known, eventType)
  }

  /** As written, a second ADDED event for the same descriptor is rejected with IllegalArgumentException("Unknow type:CHILD_ADDED"). */
  lemma AddedOfKnownDescriptorRejected(p: RpcProtocol)
    ensures EventActionAsWritten(Some(p), true, Some(ChildAdded)) == Reject
    ensures UNKNOWN_TYPE_PREFIX + TypeName(Some(ChildAdded)) == "Unknow type:CHILD_ADDED"
  {
  }

  /** With the intended decision an ADDED event is never rejected, and a repeated one changes nothing. */
  lemma IntendedAddedNeverRejected(p: RpcProtocol, known: bool)
    ensures EventActionIntended(Some(p), known, Some(ChildAdded)) == if known then Ignore else Connect
  {
  }
}
