/**
 * The client's loading tracker (frontend/app/composables/useApiLoading.ts):
 * a map of in-flight requests and a progress bar driven by it. Request ids
 * and the clock are inputs; the timers are events the caller raises
 * (`Animate` for the animation tick, `HideProgress` for the delayed hide).
 */
module ApiLoading {
  import opened Text

  datatype RequestInfo = RequestInfo(id: string, url: string, httpMethod: string, timestamp: int)

  type Requests = map<string, RequestInfo>

  const PROGRESS_CAP := 90
  const PROGRESS_DONE := 100
  const DEFAULT_MAX_AGE := 30000

  /** The map after `startRequest`: one entry under the new id, method upper-cased. */
  function Started(m: Requests, id: string, url: string, verb: string, now: int): (r: Requests)
    ensures id in r && r[id] == RequestInfo(id, url, ToUpper(verb), now)
    ensures forall k :: k != id ==> (k in r <==> k in m)
    ensures forall k :: k != id && k in m ==> r[k] == m[k]
    ensures id !in m ==> |r| == |m| + 1
  {
    m[id := RequestInfo(id, url, ToUpper(verb), now)]
  }

  /** The map after `endRequest`: that id and no other is gone. */
  function Ended(m: Requests, id: string): (r: Requests)
    ensures id !in r
    ensures forall k :: k != id ==> (k in r <==> k in m)
    ensures forall k :: k in r ==> r[k] == m[k]
    ensures id !in m ==> r == m
  {
    m - {id}
  }

  /** Ending a request just started restores the map. */
  lemma EndUndoesStart(m: Requests, id: string, url: string, verb: string, now: int)
    requires id !in m
    ensures Ended(Started(m, id, url, verb, now), id) == m
  {
    var r := Ended(Started(m, id, url, verb, now), id);
    assert r.Keys == m.Keys;
  }

  /** Ending is idempotent: a second end of the same id changes nothing. */
  lemma EndTwice(m: Requests, id: string)
    ensures Ended(Ended(m, id), id) == Ended(m, id)
  {
  }

  predicate IsStale(info: RequestInfo, now: int, maxAge: int) {
    now - info.timestamp > maxAge
  }

  /** The map after `clearStaleRequests`: exactly the entries not older than `maxAge` remain. */
  function Swept(m: Requests, now: int, maxAge: int): (r: Requests)
    ensures forall k :: k in r <==> k in m && !IsStale(m[k], now, maxAge)
    ensures forall k :: k in r ==> r[k] == m[k]
  {
    map k | k in m && !IsStale(m[k], now, maxAge) :: m[k]
  }

  /** Sweeping twice at the same instant is sweeping once. */
  lemma SweepIdempotent(m: Requests, now: int, maxAge: int)
    ensures Swept(Swept(m, now, maxAge), now, maxAge) == Swept(m, now, maxAge)
  {
    var once := Swept(m, now, maxAge);
    assert Swept(once, now, maxAge).Keys == once.Keys;
  }

  /** One animation tick: slower steps as the bar fills, never past 90, idle with no requests. */
  function NextProgress(p: int, count: nat): (r: int)
    ensures p < PROGRESS_CAP && count > 0 ==> p < r <= PROGRESS_CAP
    ensures p >= PROGRESS_CAP || count == 0 ==> r == p
  {
    if p < PROGRESS_CAP && count > 0 then
      var increment := if p < 30 then 10 else if p < 60 then 5 else 2;
      if p + increment < PROGRESS_CAP then p + increment else PROGRESS_CAP
    else p
  }

  /** `n` ticks with requests in flight. */
  function Animated(p: int, n: nat): int
    decreases n
  {
    if n == 0 then p else Animated(NextProgress(p, 1), n - 1)
  }

  /** However long the animation runs, the bar stays between where it started and 90. */
  lemma {:induction false} AnimationBounded(p: int, n: nat)
    requires p <= PROGRESS_CAP
    ensures p <= Animated(p, n) <= PROGRESS_CAP
    decreases n
  {
    if n > 0 {
      AnimationBounded(NextProgress(p, 1), n - 1);
    }
  }

  class LoadingTracker {
    var active: Requests
    var showProgress: bool
    var progress: int
    /** An animation tick is pending on the progress timer. */
    var timerArmed: bool

    ghost predicate Valid()
      reads this
    {
      0 <= progress <= PROGRESS_DONE && forall id :: id in active ==> active[id].id == id
    }

    constructor ()
      ensures Valid() && active == map[] && !showProgress && progress == 0 && !timerArmed
    {
      active := map[];
      showProgress := false;
      progress := 0;
      timerArmed := false;
    }

    /** `isLoading`: some request is in flight. */
    function IsLoading(): (r: bool)
      reads this
      ensures r <==> exists id :: id in active
    {
      assert active != map[] ==> var id :| id in active; id in active;
      |active| > 0
    }

    /** `startRequest`: tracks the request and starts the bar if it is hidden. */
    method StartRequest(url: string, verb: string, now: int, freshId: string) returns (id: string)
      requires Valid()
      modifies this
      ensures Valid()
      ensures id == freshId && active == Started(old(active), id, url, verb, now)
      ensures showProgress
      ensures old(showProgress) ==> progress == old(progress) && timerArmed == old(timerArmed)
      ensures !old(showProgress) ==> progress == 0 && timerArmed
    {
      id := freshId;
      active := active[id := RequestInfo(id, url, ToUpper(verb), now)];
      if !showProgress {
        StartProgress();
      }
    }

    method StartProgress()
      requires Valid()
      modifies this
      ensures Valid() && active == old(active)
      ensures showProgress && progress == 0 && timerArmed
    {
      showProgress := true;
      progress := 0;
      timerArmed := true;
    }

    /** The animation timer fires: advance and re-arm, or stop. */
    method Animate()
      requires Valid()
      modifies this
      ensures Valid() && active == old(active) && showProgress == old(showProgress)
      ensures progress == NextProgress(old(progress), |active|)
      ensures timerArmed <==> old(progress) < PROGRESS_CAP && |active| > 0
    {
      if progress < PROGRESS_CAP && |active| > 0 {
        progress := NextProgress(progress, |active|);
        timerArmed := true;
      } else {
        timerArmed := false;
      }
    }

    /** `completeProgress`: cancel the timer and fill the bar. */
    method CompleteProgress()
      requires Valid()
      modifies this
      ensures Valid() && active == old(active) && showProgress == old(showProgress)
      ensures progress == PROGRESS_DONE && !timerArmed
    {
      timerArmed := false;
      progress := PROGRESS_DONE;
    }

    /** The delayed hide scheduled by `completeProgress`. */
    method HideProgress()
      requires Valid()
      modifies this
      ensures Valid() && active == old(active) && timerArmed == old(timerArmed)
      ensures !showProgress && progress == 0
    {
      showProgress := false;
      progress := 0;
    }

    /** `endRequest`: untrack the id; the last one out completes the bar. */
    method EndRequest(id: string)
      requires Valid()
      modifies this
      ensures Valid() && showProgress == old(showProgress)
      ensures active == Ended(old(active), id)
      ensures active == map[] ==> progress == PROGRESS_DONE && !timerArmed
      ensures active != map[] ==> progress == old(progress) && timerArmed == old(timerArmed)
    {
      active := active - {id};
      if |active| == 0 {
        CompleteProgress();
      }
    }

    /** `forceComplete`: drop every request and fill the bar. */
    method ForceComplete()
      requires Valid()
      modifies this
      ensures Valid() && showProgress == old(showProgress)
      ensures active == map[] && progress == PROGRESS_DONE && !timerArmed
    {
      active := map[];
      CompleteProgress();
    }

    /**
     * `clearStaleRequests`: collect the ids older than `maxAge`, delete
     * them, and complete a visible bar if nothing is left.
     */
    method ClearStaleRequests(now: int, maxAge: int)
      requires Valid()
      modifies this
      ensures Valid() && showProgress == old(showProgress)
      ensures active == Swept(old(active), now, maxAge)
      ensures active == map[] && showProgress ==> progress == PROGRESS_DONE && !timerArmed
      ensures active != map[] || !showProgress ==> progress == old(progress) && timerArmed == old(timerArmed)
    {
      var stale: set<string> := {};
      var remaining := active.Keys;
      while remaining != {}
        invariant remaining <= active.Keys
        invariant forall k :: k in stale <==> k in active && k !in remaining && IsStale(active[k], now, maxAge)
        decreases remaining
      {
        var id :| id in remaining;
        if IsStale(active[id], now, maxAge) {
          stale := stale + {id};
        }
        remaining := remaining - {id};
      }
      active := active - stale;
      assert active.Keys == Swept(old(active), now, maxAge).Keys;
      if |active| == 0 && showProgress {
        CompleteProgress();
      }
    }
  }
}
