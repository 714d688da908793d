/**
 * Community covers' shared fetches (internal/api/handlers_community_covers.go:88-253): asks for
 * the same thumbnail at once share one fetch, a failed fetch is remembered for a minute, and when
 * the ask that leads gives up, those waiting on it ask again under their own. `Flights` is the
 * bookkeeping as a value, `CommunityFlights` the server's object; FlightProtocol runs any number of
 * asks over it.
 */
module SingleFlight {
  import opened Basics

  const RETRY_AFTER: int := 60_000_000_000  // communityRetryAfter
  const MAX_FAILURES: nat := 512            // maxCommunityFailures

  type Url = string

  /** A thumbnail's key: its URL and size. */
  datatype Key = Key(url: Url, size: nat)

  // ------------------------------------------------------------------ the bookkeeping

  /** The calls in flight, by key, and when each failed URL may be fetched again. */
  datatype Flights = Flights(calls: map<Key, nat>, failed: map<Url, int>)

  datatype Joined = FailedRecently | Wait(id: nat) | Lead(id: nat)

  /** join: the call in flight for key, or a new one (id) this ask leads. */
  function Join(f: Flights, key: Key, retryFailed: bool, now: int, id: nat): (Flights, Joined) {
    if key.url in f.failed && !retryFailed && now < f.failed[key.url] then (f, FailedRecently)
    else
      var g := if key.url in f.failed && !retryFailed then f.(failed := f.failed - {key.url}) else f;
      if key in g.calls then (g, Wait(g.calls[key]))
      else (g.(calls := g.calls[key := id]), Lead(id))
  }

  function Expire(failed: map<Url, int>, now: int): map<Url, int> {
    map u | u in failed && now < failed[u] :: failed[u]
  }

  /** rememberFailure: when the memory is full even without its expired entries, nothing new is kept. */
  function Remember(failed: map<Url, int>, url: Url, now: int): map<Url, int> {
    var kept := if |failed| >= MAX_FAILURES then Expire(failed, now) else failed;
    if |kept| >= MAX_FAILURES then kept else kept[url := now + RETRY_AFTER]
  }

  function Finish(f: Flights, key: Key, failed: bool, abandoned: bool, now: int): Flights {
    Flights(f.calls - {key}, if failed && !abandoned then Remember(f.failed, key.url, now) else f.failed)
  }

  lemma ExpireShrinks(failed: map<Url, int>, now: int)
    ensures |Expire(failed, now)| <= |failed|
  {
    var kept := Expire(failed, now);
    assert kept.Keys <= failed.Keys;
    SubsetSize(kept.Keys, failed.Keys);
    assert |kept| == |kept.Keys| && |failed| == |failed.Keys|;
  }

  /** The memory never holds more than its bound, nor anything for longer than its time. */
  lemma MemoryBounded(failed: map<Url, int>, url: Url, now: int)
    requires |failed| <= MAX_FAILURES && forall u <- failed :: failed[u] <= now + RETRY_AFTER
    ensures var m := Remember(failed, url, now);
      |m| <= MAX_FAILURES && forall u <- m :: m[u] <= now + RETRY_AFTER
  {
    ExpireShrinks(failed, now);
    var kept := if |failed| >= MAX_FAILURES then Expire(failed, now) else failed;
    assert kept[url := now + RETRY_AFTER].Keys == kept.Keys + {url};
  }

  /** A remembered failure is not forgotten before its time: neither by joins nor by finishes. */
  lemma FailuresLast(f: Flights, key: Key, retryFailed: bool, failed: bool, abandoned: bool, now: int, id: nat, u: Url)
    requires u in f.failed && now < f.failed[u] <= now + RETRY_AFTER
    ensures var g := Join(f, key, retryFailed, now, id).0; u in g.failed && g.failed[u] == f.failed[u]
    ensures var g := Finish(f, key, failed, abandoned, now); u in g.failed && g.failed[u] >= f.failed[u]
  {
  }

  // ---------------------------------------------------------------- the server's object

  /** What a fetch came to: a thumbnail, none for an unusable image, or an error. */
  datatype Result = Pending | Thumb(jpg: Option<Bytes>) | Err(error: Error)

  /** A fetch that failed, an ask that gave up before its own did, or a recent failure. */
  datatype Error = FetchFailed | GaveUp(ask: nat) | Recent

  class CommunityCall {
    const id: nat
    var done: bool      // closed
    var result: Result
    var abandoned: bool
    var waiters: nat

    constructor (id: nat)
      ensures this.id == id && !done && result == Pending && !abandoned && waiters == 0
    {
      this.id := id;
      done, result, abandoned, waiters := false, Pending, false, 0;
    }
  }

  class CommunityFlights {
    var calls: map<Key, CommunityCall>
    var failed: map<Url, int>
    var issued: nat  // how many calls there have been: the next one's id

    ghost predicate Valid()
      reads this, calls.Values
    {
      && |failed| <= MAX_FAILURES
      && (forall k <- calls :: !calls[k].done && calls[k].id < issued)
      && (forall k, l :: k in calls && l in calls && calls[k] == calls[l] ==> k == l)
    }

    ghost function View(): Flights
      reads this, calls.Values
    {
      Flights(map k | k in calls :: calls[k].id, failed)
    }

    constructor ()
      ensures Valid() && View() == Flights(map[], map[])
    {
      calls, failed, issued := map[], map[], 0;
    }

    /** A new call for key, which its ask leads. */
    method StartCall(key: Key) returns (c: CommunityCall)
      requires Valid() && key !in calls
      modifies this`calls, this`issued
      ensures Valid() && fresh(c) && calls == old(calls)[key := c] && c.id == old(issued)
      ensures View() == old(View()).(calls := old(View()).calls[key := c.id])
    {
      c := new CommunityCall(issued);
      calls := calls[key := c];
      issued := issued + 1;
    }

    /** Whether url failed too recently; a failure whose time is over is forgotten. */
    method RefusesYet(url: Url, now: int) returns (refused: bool)
      requires Valid()
      modifies this`failed
      ensures Valid()
      ensures refused <==> url in old(failed) && now < old(failed)[url]
      ensures View() == old(View()).(failed := if refused then old(failed) else old(failed) - {url})
    {
      if url in failed {
        if now < failed[url] {
          return true;
        }
        failed := failed - {url};
        assert failed.Keys == old(failed.Keys) - {url};
      }
      assert failed == old(failed) - {url};
      return false;
    }

    method JoinCall(key: Key, retryFailed: bool, now: int) returns (c: CommunityCall?, lead: bool)
      requires Valid()
      modifies this, calls.Values`waiters
      ensures Valid() && (c != null ==> key in calls && calls[key] == c)
      ensures var answer := if c == null then FailedRecently else if lead then Lead(c.id) else Wait(c.id);
        (View(), answer) == Join(old(View()), key, retryFailed, now, old(issued))
      ensures c != null ==> (lead <==> fresh(c))
    {
      lead := false;
      if !retryFailed {
        var refused := RefusesYet(key.url, now);
        if refused {
          return null, false;
        }
      }
      label Asked:
      assert old(failed) - {key.url} == if key.url in old(failed) then old(failed) - {key.url} else old(failed);
      if key in calls {
        c := calls[key];
        c.waiters := c.waiters + 1;
        assert View() == old@Asked(View());
      } else {
        c := StartCall(key);
        lead := true;
      }
    }

    /** rememberFailure, the purge a loop over the memory. */
    method RememberFailure(url: Url, now: int)
      requires |failed| <= MAX_FAILURES
      modifies this`failed
      ensures failed == Remember(old(failed), url, now) && |failed| <= MAX_FAILURES
    {
      if |failed| >= MAX_FAILURES {
        Purge(now);
        ExpireShrinks(old(failed), now);
        if |failed| >= MAX_FAILURES {
          return;
        }
      }
      assert failed[url := now + RETRY_AFTER].Keys == failed.Keys + {url};
      failed := failed[url := now + RETRY_AFTER];
    }

    method Purge(now: int)
      modifies this`failed
      ensures failed == Expire(old(failed), now)
    {
      ghost var before := failed;
      var todo := failed.Keys;
      assert before == map u | u in before :: before[u];
      while todo != {}
        invariant todo <= before.Keys
        invariant failed == map u | u in before && (u in todo || now < before[u]) :: before[u]
        decreases todo
      {
        var u :| u in todo;
        todo := todo - {u};
        if !(now < failed[u]) {
          failed := failed - {u};
        }
      }
      assert failed == Expire(before, now);
    }

    /** finish: the leader's call ends, and its waiters are released. */
    method FinishCall(key: Key, c: CommunityCall, abandoned: bool, now: int)
      requires Valid() && key in calls && calls[key] == c && c.result != Pending
      modifies this`calls, this`failed, c`done, c`abandoned
      ensures Valid() && View() == Finish(old(View()), key, c.result.Err?, abandoned, now)
      ensures c.done && c.abandoned == abandoned && c !in calls.Values
    {
      c.abandoned := abandoned;
      if c.result.Err? && !abandoned {
        RememberFailure(key.url, now);
      }
      DropCall(key, c);
      c.done := true;
    }

    /** The call leaves the map; no other key holds it. */
    method DropCall(key: Key, c: CommunityCall)
      requires Valid() && key in calls && calls[key] == c
      modifies this`calls
      ensures Valid() && c !in calls.Values && View() == old(View()).(calls := old(View()).calls - {key})
    {
      assert c !in (calls - {key}).Values;
      calls := calls - {key};
    }
  }
}
