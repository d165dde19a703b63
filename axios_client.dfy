/**
 * The client's HTTP plugin (frontend/app/plugins/axios.client.ts) as a
 * sequential state machine: the request interceptor, the response
 * interceptors, and the token refresh with its queue of waiting requests.
 * Each asynchronous step is an event the caller raises: a response or an
 * error arriving, the refresh call succeeding or failing. Local storage is
 * a map from keys to strings.
 */
module AxiosClient {
  import opened Wrappers
  import opened Text
  import opened ApiLoading

  /** A request config as the interceptors see it. */
  datatype Request = Request(
    url: string, httpMethod: string, authorization: Option<string>, retried: bool, requestId: Option<string>)

  type Storage = map<string, string>

  const TOKEN_KEY := "token"
  const USERNAME_KEY := "username"
  const ROLE_KEY := "role"
  const REFRESH_URL := "/refresh"

  function Bearer(token: string): string {
    "Bearer " + token
  }

  /** The header after the request interceptor: set only for a stored, non-empty token. */
  function AuthHeader(storage: Storage, current: Option<string>): (h: Option<string>)
    ensures h != current ==> TOKEN_KEY in storage && storage[TOKEN_KEY] != "" && h == Some(Bearer(storage[TOKEN_KEY]))
    ensures TOKEN_KEY in storage && storage[TOKEN_KEY] != "" ==> h == Some(Bearer(storage[TOKEN_KEY]))
  {
    if TOKEN_KEY in storage && storage[TOKEN_KEY] != "" then Some(Bearer(storage[TOKEN_KEY])) else current
  }

  /** JavaScript's `s || d` on a string. */
  function OrDefault(s: string, d: string): string {
    if s == "" then d else s
  }

  /** An unauthorised or forbidden answer to a request not yet retried starts or joins a refresh. */
  predicate TriggersRefresh(status: Option<int>, req: Request) {
    (status == Some(401) || status == Some(403)) && !req.retried
  }

  /** How `processQueue` settled a waiting request. */
  datatype Settlement = Resolved(req: Request, token: string) | Rejected(req: Request)

  /** `processQueue`: every waiter, in order, resolved with the token or, on error, rejected. */
  function Settle(queue: seq<Request>, token: Option<string>): (r: seq<Settlement>)
    ensures |r| == |queue|
    ensures forall i :: 0 <= i < |r| ==> r[i].req == queue[i]
    ensures token.None? ==> forall i :: 0 <= i < |r| ==> r[i].Rejected?
    ensures token.Some? ==> forall i :: 0 <= i < |r| ==> r[i] == Resolved(queue[i], token.value)
    decreases |queue|
  {
    if queue == [] then []
    else
      var last := queue[|queue| - 1];
      Settle(queue[..|queue| - 1], token) + [if token.Some? then Resolved(last, token.value) else Rejected(last)]
  }

  datatype ErrorOutcome = Queued | RefreshStarted | RejectedUnchanged

  // ---------------------------------------------------------------------
  // The tracker over one refresh-and-retry cycle
  // ---------------------------------------------------------------------

  /**
   * The tracker as the plugin leaves it after a successful refresh and the
   * retried request's own round trip: the success branch ends the refresh
   * entry and starts a retry entry, then the retry passes through the
   * request interceptor, which starts a second entry and overwrites the
   * request's id, and the retry's response ends that second entry.
   */
  function RetryCycleAsWritten(m: Requests, refreshId: string, retryId: string, interceptorId: string,
                               req: Request, now: int): (r: Requests)
    ensures interceptorId !in r
    ensures retryId != interceptorId ==> retryId in r && r[retryId].url == req.url
    ensures forall k :: k in r && k != retryId ==> k in m && k != refreshId
  {
    var afterRefresh := Started(Ended(m, refreshId), retryId, req.url, OrDefault(req.httpMethod, "GET"), now);
    var sent := Started(afterRefresh, interceptorId, req.url, OrDefault(req.httpMethod, "GET"), now);
    Ended(sent, interceptorId)
  }

  /**
   * The entry the success branch starts is never ended by the cycle: it
   * stays in the map, and loading stays on, until the stale-request sweep
   * removes it.
   */
  lemma RetryLeaksAsWritten(m: Requests, refreshId: string, retryId: string, interceptorId: string, req: Request, now: int)
    requires retryId != interceptorId
    ensures retryId in RetryCycleAsWritten(m, refreshId, retryId, interceptorId, req, now)
    ensures exists id :: id in RetryCycleAsWritten(m, refreshId, retryId, interceptorId, req, now)
  {
  }

  /** With the interceptor as the only place that tracks the retry. */
  function RetryCycle(m: Requests, refreshId: string, interceptorId: string, req: Request, now: int): (r: Requests)
    ensures interceptorId !in r && refreshId !in r
    ensures forall k :: k in r ==> k in m && r[k] == m[k]
  {
    var sent := Started(Ended(m, refreshId), interceptorId, req.url, OrDefault(req.httpMethod, "GET"), now);
    Ended(sent, interceptorId)
  }

  /** Every entry of the cycle is ended: the tracker is as it was, minus the refresh. */
  lemma RetryCycleRestores(m: Requests, refreshId: string, interceptorId: string, req: Request, now: int)
    requires interceptorId !in m || interceptorId == refreshId
    ensures RetryCycle(m, refreshId, interceptorId, req, now) == Ended(m, refreshId)
  {
    EndUndoesStart(Ended(m, refreshId), interceptorId, req.url, OrDefault(req.httpMethod, "GET"), now);
  }

  /** A lone failing request leaves nothing in flight once its retry is answered. */
  lemma RetryCycleIdle(refreshId: string, info: RequestInfo, interceptorId: string, req: Request, now: int)
    ensures RetryCycle(map[refreshId := info], refreshId, interceptorId, req, now) == map[]
  {
    var m := map[refreshId := info];
    RetryCycleRestores(m, refreshId, interceptorId, req, now);
    assert Ended(m, refreshId).Keys == {};
  }

  /** The plugin's state. */
  class Client {
    const loading: LoadingTracker
    var storage: Storage
    var isRefreshing: bool
    var failedQueue: seq<Request>
    /** Settlements handed out by `processQueue`, oldest first. */
    var settled: seq<Settlement>
    /** The request that started the running refresh, and the refresh's tracker id. */
    var refresh: Option<(Request, string)>

    ghost predicate Valid()
      reads this, loading
    {
      loading.Valid()
      && (isRefreshing <==> refresh.Some?)
      && (!isRefreshing ==> failedQueue == [])
      && (refresh.Some? ==> refresh.value.0.retried)
    }

    constructor (loading: LoadingTracker, storage: Storage)
      requires loading.Valid()
      ensures Valid() && this.loading == loading && this.storage == storage
      ensures !isRefreshing && failedQueue == [] && settled == []
    {
      this.loading := loading;
      this.storage := storage;
      isRefreshing := false;
      failedQueue := [];
      settled := [];
      refresh := None;
    }

    /** The request interceptor: attach the token and track the request. */
    method OnRequest(req: Request, now: int, freshId: string) returns (sent: Request)
      requires Valid()
      modifies loading
      ensures Valid()
      ensures sent == req.(authorization := AuthHeader(storage, req.authorization), requestId := Some(freshId))
      ensures loading.active == Started(old(loading.active), freshId, req.url, OrDefault(req.httpMethod, "GET"), now)
    {
      var id := loading.StartRequest(req.url, OrDefault(req.httpMethod, "GET"), now, freshId);
      sent := req.(authorization := AuthHeader(storage, req.authorization), requestId := Some(id));
    }

    /** A response, or an error raised before sending: stop tracking the request. */
    method OnSettled(req: Request)
      requires Valid()
      modifies loading
      ensures Valid()
      ensures req.requestId.Some? ==> loading.active == Ended(old(loading.active), req.requestId.value)
      ensures req.requestId.None? ==> loading.active == old(loading.active)
    {
      if req.requestId.Some? {
        loading.EndRequest(req.requestId.value);
      }
    }

    /**
     * The error interceptor: stop tracking, then queue behind a running
     * refresh, start one, or pass the error on.
     */
    method OnResponseError(req: Request, status: Option<int>, now: int, refreshId: string) returns (outcome: ErrorOutcome)
      requires Valid()
      modifies this, loading
      ensures Valid() && storage == old(storage) && settled == old(settled)
      ensures outcome == RejectedUnchanged <==> !TriggersRefresh(status, req)
      ensures outcome == Queued <==> TriggersRefresh(status, req) && old(isRefreshing)
      ensures outcome == Queued ==> failedQueue == old(failedQueue) + [req] && refresh == old(refresh)
      ensures outcome == RefreshStarted ==>
                isRefreshing && failedQueue == old(failedQueue) && refresh == Some((req.(retried := true), refreshId))
      ensures outcome == RejectedUnchanged ==>
                isRefreshing == old(isRefreshing) && failedQueue == old(failedQueue) && refresh == old(refresh)
      ensures var ended := if req.requestId.Some? then Ended(old(loading.active), req.requestId.value) else old(loading.active);
              loading.active == if outcome == RefreshStarted then Started(ended, refreshId, REFRESH_URL, "POST", now) else ended
    {
      OnSettled(req);
      if !TriggersRefresh(status, req) {
        return RejectedUnchanged;
      }
      if isRefreshing {
        failedQueue := failedQueue + [req];
        return Queued;
      }
      var original := req.(retried := true);
      isRefreshing := true;
      var id := loading.StartRequest(REFRESH_URL, "POST", now, refreshId);
      refresh := Some((original, id));
      outcome := RefreshStarted;
    }

    /** `processQueue`: settle every waiter in order, then empty the queue. */
    method ProcessQueue(token: Option<string>)
      modifies this
      ensures settled == old(settled) + Settle(old(failedQueue), token)
      ensures failedQueue == []
      ensures storage == old(storage) && isRefreshing == old(isRefreshing) && refresh == old(refresh)
    {
      var i := 0;
      while i < |failedQueue|
        invariant 0 <= i <= |failedQueue|
        invariant settled == old(settled) + Settle(failedQueue[..i], token)
        invariant failedQueue == old(failedQueue) && storage == old(storage)
        invariant isRefreshing == old(isRefreshing) && refresh == old(refresh)
      {
        assert failedQueue[..i + 1][..i] == failedQueue[..i];
        settled := settled + [if token.Some? then Resolved(failedQueue[i], token.value) else Rejected(failedQueue[i])];
        i := i + 1;
      }
      assert failedQueue[..i] == failedQueue;
      failedQueue := [];
    }

    /**
     * The refresh call answered with a new token: end the refresh's entry,
     * store the token, track the original request again under `retryId`,
     * release the waiters and hand back the original request to send again,
     * with the new header. Sending it passes through `OnRequest`, which
     * tracks it under another id and overwrites `requestId`, so the entry
     * started here is never ended (`RetryLeaksAsWritten`).
     */
    method OnRefreshSucceeded(newToken: string, now: int, retryId: string) returns (retry: Request)
      requires Valid() && refresh.Some?
      modifies this, loading
      ensures Valid() && !isRefreshing && failedQueue == []
      ensures storage == old(storage)[TOKEN_KEY := newToken]
      ensures settled == old(settled) + Settle(old(failedQueue), Some(newToken))
      ensures retry == old(refresh).value.0.(authorization := Some(Bearer(newToken)), requestId := Some(retryId))
      ensures retry.retried
      ensures loading.active ==
                Started(Ended(old(loading.active), old(refresh).value.1), retryId,
                        retry.url, OrDefault(retry.httpMethod, "GET"), now)
    {
      var (original, refreshId) := refresh.value;
      loading.EndRequest(refreshId);
      storage := storage[TOKEN_KEY := newToken];
      var id := loading.StartRequest(original.url, OrDefault(original.httpMethod, "GET"), now, retryId);
      retry := original.(authorization := Some(Bearer(newToken)), requestId := Some(id));
      ProcessQueue(Some(newToken));
      isRefreshing := false;
      refresh := None;
    }

    /**
     * The refresh call failed: reject every waiter, drop all tracked
     * requests and remove the token, username and role from storage.
     */
    method OnRefreshFailed()
      requires Valid() && refresh.Some?
      modifies this, loading
      ensures Valid() && !isRefreshing && failedQueue == [] && refresh.None?
      ensures settled == old(settled) + Settle(old(failedQueue), None)
      ensures storage == old(storage) - {TOKEN_KEY, USERNAME_KEY, ROLE_KEY}
      ensures loading.active == map[] && loading.progress == PROGRESS_DONE
    {
      ProcessQueue(None);
      isRefreshing := false;
      refresh := None;
      loading.ForceComplete();
      storage := storage - {TOKEN_KEY, USERNAME_KEY, ROLE_KEY};
    }
  }
}
