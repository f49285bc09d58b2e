/**
 * RpcFuture: the client's one-shot handle on an outstanding call. A Sync state
 * moves from pending to done when the response arrives; callbacks registered
 * before that are queued and dispatched by `done`, later ones at once.
 */
module Future {
  import opened Wrappers
  import opened JavaLang
  import opened Entities

  /** Sync's two states. */
  const PENDING: int := 0
  const DONE: int := 1

  /** Sync.tryAcquire and Sync.isDone: the state is done. */
  predicate TryAcquire(state: int)
    ensures TryAcquire(state) ==> state != PENDING
    ensures state == DONE ==> TryAcquire(state)
  {
    state == DONE
  }

  /** Sync.tryRelease: from pending the compare-and-set moves to done; from done it stays. Always succeeds. */
  function TryRelease(state: int): (r: (bool, int))
    requires state == PENDING || state == DONE
    ensures r.0 && r.1 == DONE
    ensures TryAcquire(r.1)
  {
    if state == PENDING then
      (true, DONE)  // compareAndSetState(pending, done) cannot fail without a competing thread
    else
      (true, state)
  }

  /** A user's AsyncRPCCallback, known by its identity. */
  datatype Callback = Callback(id: nat)

  /** A task handed to the client's thread pool by runCallback: the callback and the response it captured. */
  datatype Task = Task(callback: Callback, response: RpcResponse)

  /** What a task does when the pool runs it: one call on the callback. */
  datatype CallbackCall = Succeeded(callback: Callback, result: Value) | Failed(callback: Callback, e: Throwable)

  const RESPONSE_ERROR: string := "Response error"

  /** The body of runCallback's Runnable. */
  function RunTask(t: Task): (c: CallbackCall)
    ensures c.callback == t.callback
    ensures c.Succeeded? <==> t.response.error.None?
    ensures c.Succeeded? ==> c.result == t.response.result
    ensures c.Failed? ==> (c.e.kind == RuntimeException && c.e.message == Some(RESPONSE_ERROR)
                           && c.e.cause.Some? && c.e.cause.value.cause == t.response.error)
  {
    match t.response.error
    case None => Succeeded(t.callback, t.response.result)
    case Some(err) => Failed(t.callback, Throwable(RuntimeException, Some(RESPONSE_ERROR), Some(WrapCause(err))))
  }

  /** The tasks invokeCallbacks submits: one per queued callback, in list order, all with the same response. */
  function TasksFor(callbacks: seq<Callback>, response: RpcResponse): (ts: seq<Task>)
    ensures |ts| == |callbacks|
    ensures forall i :: 0 <= i < |ts| ==> ts[i] == Task(callbacks[i], response)
  {
    if |callbacks| == 0 then [] else TasksFor(callbacks[..|callbacks| - 1], response) + [Task(callbacks[|callbacks| - 1], response)]
  }

  const TIMEOUT_PREFIX: string := "Timeout exception. Request id: "
  const TIMEOUT_CLASS: string := ". Request class name: "
  const TIMEOUT_METHOD: string := ". Request method: "

  /** The message of get(timeout)'s RuntimeException. */
  function TimeoutMessage(request: RpcRequest): (s: string)
    ensures |s| >= |TIMEOUT_PREFIX| && s[..|TIMEOUT_PREFIX|] == TIMEOUT_PREFIX
    ensures var a := |TIMEOUT_PREFIX| + |Text(request.requestId)|;
            var b := a + |TIMEOUT_CLASS| + |Text(request.className)|;
            && |s| == b + |TIMEOUT_METHOD| + |Text(request.methodName)|
            && s[|TIMEOUT_PREFIX|..a] == Text(request.requestId)
            && s[a..a + |TIMEOUT_CLASS|] == TIMEOUT_CLASS
            && s[a + |TIMEOUT_CLASS|..b] == Text(request.className)
            && s[b..b + |TIMEOUT_METHOD|] == TIMEOUT_METHOD
            && s[b + |TIMEOUT_METHOD|..] == Text(request.methodName)
  {
    TIMEOUT_PREFIX + Text(request.requestId) + TIMEOUT_CLASS + Text(request.className) + TIMEOUT_METHOD + Text(request.methodName)
  }

  /** What get() does now: it stays blocked until the future is done, then returns a value. */
  datatype GetOutcome = Blocked | Returned(value: Value)

  class RpcFuture {
    /** Sync's AQS state. */
    var state: int
    const request: RpcRequest
    var response: Option<RpcResponse>
    var pendingCallbacks: seq<Callback>
    /** Every task submitted to the client's thread pool by this future, in submission order. */
    var submitted: seq<Task>

    ghost predicate Valid()
      reads this
    {
      && (state == PENDING || state == DONE)
      && (TryAcquire(state) <==> response.Some?)
    }

    constructor (request: RpcRequest)
      ensures Valid()
      ensures state == PENDING && this.request == request && response.None?
      ensures pendingCallbacks == [] && submitted == []
    {
      state := PENDING;
      this.request := request;
      response := None;
      pendingCallbacks := [];
      submitted := [];
    }

    function IsDone(): (r: bool)
      reads this
      requires Valid()
      ensures r <==> response.Some?
    {
      TryAcquire(state)
    }

    /** get(): blocks until done, then the response's result (null for a null response). Changes nothing. */
    method Get() returns (r: GetOutcome)
      requires Valid()
      ensures r.Blocked? <==> !IsDone()
      ensures r.Returned? ==> r.value == response.value.result
    {
      if !TryAcquire(state) {
        return Blocked;
      }
      r := Returned(response.value.result);
    }

    /**
     * get(timeout, unit): the result if the future is done when the wait ends,
     * otherwise the timeout RuntimeException naming the request. The wait itself
     * is collapsed to the moment it ends.
     */
    method GetWithTimeout() returns (r: Result<Value, Throwable>)
      requires Valid()
      ensures r.Ok? <==> IsDone()
      ensures r.Ok? ==> r.value == response.value.result
      ensures r.Err? ==> r.error == Raise(RuntimeException, TimeoutMessage(request))
    {
      var success := TryAcquire(state);
      if success {
        r := Ok(response.value.result);
      } else {
        r := Err(Raise(RuntimeException, TimeoutMessage(request)));
      }
    }

    /** sync.release(1). */
    method Release() returns (released: bool)
      requires state == PENDING || state == DONE
      modifies this`state
      ensures released && state == DONE
    {
      var (ok, next) := TryRelease(state);
      state := next;
      released := ok;
    }

    /** runCallback: submits one task carrying the current response. */
    method RunCallback(callback: Callback)
      requires Valid() && IsDone()
      modifies this`submitted
      ensures submitted == old(submitted) + [Task(callback, response.value)]
    {
      submitted := submitted + [Task(callback, response.value)];
    }

    /** invokeCallbacks: one task per queued callback, in list order. The list is not cleared. */
    method InvokeCallbacks()
      requires Valid() && IsDone()
      modifies this`submitted
      ensures submitted == old(submitted) + TasksFor(pendingCallbacks, response.value)
    {
      for i := 0 to |pendingCallbacks|
        invariant submitted == old(submitted) + TasksFor(pendingCallbacks[..i], response.value)
      {
        assert pendingCallbacks[..i + 1][..i] == pendingCallbacks[..i];
        RunCallback(pendingCallbacks[i]);
      }
      assert pendingCallbacks[..|pendingCallbacks|] == pendingCallbacks;
    }

    /**
     * done(response): stores the response (replacing any earlier one), marks
     * the future done and submits a task for every queued callback. Calling it
     * again submits every queued callback again, with the new response.
     */
    method Done(r: RpcResponse)
      requires Valid()
      modifies this`state, this`response, this`submitted
      ensures Valid() && IsDone() && response == Some(r)
      ensures pendingCallbacks == old(pendingCallbacks)
      ensures submitted == old(submitted) + TasksFor(pendingCallbacks, r)
    {
      response := Some(r);
      var _ := Release();
      InvokeCallbacks();
    }

    /** addCallback: dispatched at once when done, otherwise queued. Returns this future. */
    method AddCallback(callback: Callback) returns (self: RpcFuture)
      requires Valid()
      modifies this`pendingCallbacks, this`submitted
      ensures Valid() && self == this
      ensures old(IsDone()) ==> pendingCallbacks == old(pendingCallbacks) && submitted == old(submitted) + [Task(callback, response.value)]
      ensures !old(IsDone()) ==> pendingCallbacks == old(pendingCallbacks) + [callback] && submitted == old(submitted)
    {
      if IsDone() {
        RunCallback(callback);
      } else {
        pendingCallbacks := pendingCallbacks + [callback];
      }
      self := this;
    }
  }

  /** Every queued callback's call reports that callback's outcome for the response: success with its result, or failure. */
  lemma {:induction false} TasksReportResponse(callbacks: seq<Callback>, response: RpcResponse, i: nat)
    requires i < |callbacks|
    ensures var c := RunTask(TasksFor(callbacks, response)[i]);
            && c.callback == callbacks[i]
            && (response.error.None? ==> c == Succeeded(callbacks[i], response.result))
            && (response.error.Some? ==> c.Failed?)
  {
  }

  /**
   * done() is not idempotent: a future with queued callbacks completed twice
   * submits each callback twice, the second time with the second response.
   */
  lemma DoneTwiceRedispatches(callbacks: seq<Callback>, first: RpcResponse, second: RpcResponse)
    requires |callbacks| > 0 && first != second
    ensures TasksFor(callbacks, first) + TasksFor(callbacks, second) != TasksFor(callbacks, first)
    ensures (TasksFor(callbacks, first) + TasksFor(callbacks, second))[|callbacks|] == Task(callbacks[0], second)
    ensures forall i :: 0 <= i < |callbacks| ==>
      (TasksFor(callbacks, first) + TasksFor(callbacks, second))[|callbacks| + i] == Task(callbacks[i], second)
  {
  }

  /** Two responses delivered to one future: every queued callback is submitted once per response, in order. */
  method DoneTwice(f: RpcFuture, first: RpcResponse, second: RpcResponse)
    requires f.Valid()
    modifies f`state, f`response, f`submitted
    ensures f.Valid() && f.IsDone() && f.response == Some(second)
    ensures f.pendingCallbacks == old(f.pendingCallbacks)
    ensures f.submitted == old(f.submitted) + TasksFor(f.pendingCallbacks, first) + TasksFor(f.pendingCallbacks, second)
  {
    f.Done(first);
    f.Done(second);
  }
}
