/**
 * RpcClientHandler: one client connection. It keeps the table of calls sent
 * on this connection that still wait for their response (pendingRPC, request
 * id to future), completes a future when its response arrives, and sends the
 * heartbeat ping when the connection has been idle.
 */
module ClientHandler {
  import opened Wrappers
  import opened JavaLang
  import opened Entities
  import opened Protocol
  import opened Future

  /**
   * How the synchronous channel write ended: written, failed with a cause
   * (sync() rethrows it), or interrupted while waiting (caught and logged).
   */
  datatype WriteOutcome = Written | WriteFailed(cause: Throwable) | WriteInterrupted

  /** A user event reaching the handler: the idle-state event, or any other. */
  datatype UserEvent = IdleStateEvent | OtherEvent(name: string)

  class RpcClientHandler {
    /** pendingRPC: request id to the future of that call (a ConcurrentHashMap: no null keys). */
    var pendingRPC: map<string, RpcFuture>
    /** The descriptor of the server this connection goes to, once set. */
    var rpcProtocol: Option<RpcProtocol>
    /** Every request written to the channel, in order. */
    var sent: seq<RpcRequest>
    /** Whether closing the channel has been requested. */
    var closing: bool

    ghost predicate Valid()
      reads this, pendingRPC.Values
    {
      forall f :: f in pendingRPC.Values ==> f.Valid()
    }

    constructor ()
      ensures Valid()
      ensures pendingRPC == map[] && rpcProtocol.None? && sent == [] && !closing
    {
      pendingRPC := map[];
      rpcProtocol := None;
      sent := [];
      closing := false;
    }

    /**
     * sendRequest: a fresh future for the request is entered under the
     * request's id (replacing any entry with that id) before the request is
     * written. The future is returned when the write succeeds or the wait
     * for it is interrupted; a failed write rethrows its cause out of sync(),
     * and the entry stays behind. A null id is rejected by the map before
     * anything happens.
     */
    method SendRequest(request: RpcRequest, write: WriteOutcome) returns (r: Result<RpcFuture, Throwable>)
      requires Valid()
      modifies this`pendingRPC, this`sent
      ensures Valid()
      ensures request.requestId.None? ==> r == Err(NULL_POINTER) && pendingRPC == old(pendingRPC) && sent == old(sent)
      ensures request.requestId.Some? ==>
        var id := request.requestId.value;
        && id in pendingRPC && fresh(pendingRPC[id])
        && pendingRPC[id].Valid() && pendingRPC[id].request == request && !pendingRPC[id].IsDone()
        && pendingRPC[id].pendingCallbacks == [] && pendingRPC[id].submitted == []
        && pendingRPC == old(pendingRPC)[id := pendingRPC[id]]
        && sent == old(sent) + [request]
        && r == (if write.WriteFailed? then Err(write.cause) else Ok(pendingRPC[id]))
    {
      if request.requestId.None? {
        return Err(NULL_POINTER);
      }
      var rpcFuture := new RpcFuture(request);
      pendingRPC := pendingRPC[request.requestId.value := rpcFuture];
      sent := sent + [request];
      match write {
        case Written =>
        case WriteFailed(cause) =>
          return Err(cause);          // rethrown by sync(); the isSuccess() check is never reached
        case WriteInterrupted =>      // InterruptedException caught and logged
      }
      r := Ok(rpcFuture);
    }

    /**
     * channelRead0: the response's id selects the pending call; a known id is
     * removed from the table and its future completed with the response, an
     * unknown id is only logged. A null id makes the map throw.
     */
    method ChannelRead0(response: RpcResponse) returns (r: Outcome<Throwable>)
      requires Valid()
      modifies this`pendingRPC, pendingRPC.Values
      ensures Valid()
      ensures response.requestId.None? ==> r == Fail(NULL_POINTER) && pendingRPC == old(pendingRPC)
      ensures response.requestId.Some? ==> r == Pass
      ensures response.requestId.Some? && response.requestId.value in old(pendingRPC) ==>
        var f := old(pendingRPC)[response.requestId.value];
        && pendingRPC == old(pendingRPC) - {response.requestId.value}
        && f.Valid() && f.IsDone() && f.response == Some(response)
        && f.pendingCallbacks == old(f.pendingCallbacks)
        && f.submitted == old(f.submitted) + TasksFor(f.pendingCallbacks, response)
        && (forall g :: g in old(pendingRPC.Values) && g != f ==> unchanged(g))
      ensures response.requestId.Some? && response.requestId.value !in old(pendingRPC) ==>
        pendingRPC == old(pendingRPC) && (forall g :: g in old(pendingRPC.Values) ==> unchanged(g))
      ensures response.requestId.None? ==> forall g :: g in old(pendingRPC.Values) ==> unchanged(g)
    {
      if response.requestId.None? {
        return Fail(NULL_POINTER);
      }
      var requestId := response.requestId.value;
      r := Pass;
      if requestId in pendingRPC {
        var rpcFuture := pendingRPC[requestId];
        pendingRPC := pendingRPC - {requestId};
        rpcFuture.Done(response);
      }
      // otherwise logged: "Can not get pending response for request id: ..."
    }

    /**
     * userEventTriggered: on the idle event the heartbeat ping is sent through
     * sendRequest, so a pending entry is kept under BEAT_PING_PONG; any other
     * event is passed on down the pipeline (`forwarded`). When the ping's
     * write fails, the rethrown cause (`raised`) is handed by the pipeline to
     * this handler's exceptionCaught, which closes the channel.
     */
    method UserEventTriggered(evt: UserEvent, write: WriteOutcome) returns (forwarded: bool, raised: Option<Throwable>)
      requires Valid()
      modifies this`pendingRPC, this`sent, this`closing
      ensures Valid()
      ensures forwarded <==> !evt.IdleStateEvent?
      ensures raised == (if evt.IdleStateEvent? && write.WriteFailed? then Some(write.cause) else None)
      ensures closing == (old(closing) || raised.Some?)
      ensures evt.IdleStateEvent? ==>
        && BEAT_ID in pendingRPC && fresh(pendingRPC[BEAT_ID])
        && pendingRPC[BEAT_ID].request == BEAT_PING
        && pendingRPC == old(pendingRPC)[BEAT_ID := pendingRPC[BEAT_ID]]
        && sent == old(sent) + [BEAT_PING]
      ensures !evt.IdleStateEvent? ==> pendingRPC == old(pendingRPC) && sent == old(sent)
    {
      raised := None;
      if evt.IdleStateEvent? {
        var ping := SendRequest(BEAT_PING, write);
        forwarded := false;
        if ping.Err? {
          raised := Some(ping.error);
          ExceptionCaught(ping.error);
        }
      } else {
        forwarded := true;
      }
    }

    /** exceptionCaught: the channel is closed. */
    method ExceptionCaught(cause: Throwable)
      modifies this`closing
      ensures closing
    {
      closing := true;
    }

    /** close: an empty buffer is flushed and the channel closed after it. */
    method Close()
      modifies this`closing
      ensures closing
    {
      closing := true;
    }

    method SetRpcProtocol(p: RpcProtocol)
      modifies this`rpcProtocol
      ensures rpcProtocol == Some(p)
    {
      rpcProtocol := Some(p);
    }
  }
}
