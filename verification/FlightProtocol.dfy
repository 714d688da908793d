/**
 * communityThumbnail run by any number of asks at once
 * (internal/api/handlers_community_covers.go:97-153, 200-233): look in the thumbnail cache, join
 * the flight for the key, and lead it or wait on it. Every interleaving is a run of the
 * transition system below, over the bookkeeping of SingleFlight.
 */
module FlightProtocol {
  import opened Basics
  import opened SingleFlight

  /** A call; leader is the ask it is for. It is done once its channel is closed. */
  datatype Call = Call(key: Key, leader: nat, result: Result, abandoned: bool, done: bool)

  /** Whose work an answer is. */
  datatype Origin = Own | Cached | Shared(id: nat)

  datatype Phase =
    | Start               // about to look in the cache
    | Missed              // about to join
    | Leading(id: nat)    // fetching; calls holds id under its key
    | Closing(id: nat)    // out of calls, the channel not closed yet
    | Waiting(id: nat)
    | Answered(result: Result, origin: Origin)

  /** One ask for a thumbnail; ended when its request is over. */
  datatype Ask = Ask(key: Key, retryFailed: bool, ended: bool, phase: Phase)

  datatype State = State(now: int, f: Flights, cached: map<Key, Option<Bytes>>,
                         calls: map<nat, Call>, asks: map<nat, Ask>)

  datatype Step =
    | Tick(dt: nat)
    | Arrive(a: nat, key: Key, retryFailed: bool)
    | End(a: nat)                  // a's request is over
    | Look(a: nat)                 // the cache
    | JoinFlight(a: nat, id: nat)
    | Fetch(a: nat, result: Result)
    | Finish(a: nat)               // out of the map, under the lock
    | Close(a: nat)                // and then the channel is closed
    | Released(a: nat)             // a waiter whose call is done
    | GiveUp(a: nat)               // a waiter whose request is over
    | Evict(key: Key)              // the cache drops a thumbnail to make room

  ghost predicate Init(s: State) {
    s.f == Flights(map[], map[]) && s.calls == map[] && s.asks == map[]
  }

  ghost predicate In(s: State, a: nat) {
    a in s.asks
  }

  ghost predicate Fetching(s: State, a: nat) {
    In(s, a) && s.asks[a].phase.Leading? && s.asks[a].phase.id in s.calls
  }

  ghost predicate MayFetch(s: State, a: nat, result: Result) {
    && Fetching(s, a) && s.calls[s.asks[a].phase.id].result == Pending
    && (result.Thumb? || result == Err(FetchFailed) || (result == Err(GaveUp(a)) && s.asks[a].ended))
  }

  ghost predicate MayFinish(s: State, a: nat) {
    Fetching(s, a) && s.calls[s.asks[a].phase.id].result != Pending
  }

  ghost predicate MayClose(s: State, a: nat) {
    In(s, a) && s.asks[a].phase.Closing? && s.asks[a].phase.id in s.calls
  }

  ghost predicate Enabled(s: State, step: Step) {
    match step
    case Tick(_) => true
    case Arrive(a, _, _) => a !in s.asks
    case End(a) => In(s, a)
    case Look(a) => In(s, a) && s.asks[a].phase.Start?
    case JoinFlight(a, id) => In(s, a) && s.asks[a].phase.Missed? && id !in s.calls
    case Fetch(a, result) => MayFetch(s, a, result)
    case Finish(a) => MayFinish(s, a)
    case Close(a) => MayClose(s, a)
    case Released(a) =>
      In(s, a) && s.asks[a].phase.Waiting? && s.asks[a].phase.id in s.calls && s.calls[s.asks[a].phase.id].done
    case GiveUp(a) => In(s, a) && s.asks[a].phase.Waiting? && s.asks[a].ended
    case Evict(_) => true
  }

  function Goes(s: State, a: nat, phase: Phase): State
    requires a in s.asks
  {
    s.(asks := s.asks[a := s.asks[a].(phase := phase)])
  }

  ghost function Fetched(s: State, a: nat, result: Result): State
    requires Fetching(s, a)
  {
    var id, key := s.asks[a].phase.id, s.asks[a].key;
    s.(calls := s.calls[id := s.calls[id].(result := result)],
       cached := if result.Thumb? then s.cached[key := result.jpg] else s.cached)
  }

  ghost function Finished(s: State, a: nat): State
    requires Fetching(s, a)
  {
    var id, q := s.asks[a].phase.id, s.asks[a];
    var c := s.calls[id];
    var t := s.(f := SingleFlight.Finish(s.f, q.key, c.result.Err?, q.ended, s.now),
                calls := s.calls[id := c.(abandoned := q.ended)]);
    Goes(t, a, Closing(id))
  }

  ghost function Closed(s: State, a: nat): State
    requires MayClose(s, a)
  {
    var id := s.asks[a].phase.id;
    Goes(s.(calls := s.calls[id := s.calls[id].(done := true)]), a, Answered(s.calls[id].result, Own))
  }

  ghost function After(s: State, step: Step): State
    requires Enabled(s, step)
  {
    match step
    case Tick(dt) => s.(now := s.now + dt)
    case Arrive(a, key, retry) => s.(asks := s.asks[a := Ask(key, retry, false, Start)])
    case End(a) => s.(asks := s.asks[a := s.asks[a].(ended := true)])
    case Look(a) =>
      var key := s.asks[a].key;
      Goes(s, a, if key in s.cached then Answered(Thumb(s.cached[key]), Cached) else Missed)
    case JoinFlight(a, id) =>
      var q := s.asks[a];
      var (f, joined) := Join(s.f, q.key, q.retryFailed, s.now, id);
      var t := s.(f := f);
      match joined {
        case FailedRecently => Goes(t, a, Answered(Err(Recent), Own))
        case Wait(c) => Goes(t, a, Waiting(c))
        case Lead(c) => Goes(t.(calls := t.calls[c := Call(q.key, a, Pending, false, false)]), a, Leading(c))
      }
    case Fetch(a, result) => Fetched(s, a, result)
    case Finish(a) => Finished(s, a)
    case Close(a) => Closed(s, a)
    case Released(a) =>
      var id, q := s.asks[a].phase.id, s.asks[a];
      var c := s.calls[id];
      if !c.result.Err? || !c.abandoned then Goes(s, a, Answered(c.result, Shared(id)))
      else if q.ended then Goes(s, a, Answered(Err(GaveUp(a)), Own))
      else Goes(s, a, Start)
    case GiveUp(a) => Goes(s, a, Answered(Err(GaveUp(a)), Own))
    case Evict(key) => s.(cached := s.cached - {key})
  }

  ghost predicate Run(trace: seq<State>, steps: seq<Step>) {
    && |trace| == |steps| + 1 && Init(trace[0])
    && forall i :: 0 <= i < |steps| ==> Enabled(trace[i], steps[i]) && trace[i + 1] == After(trace[i], steps[i])
  }

  // ------------------------------------------------------------------------ invariant

  /** ask a leads or is closing call id. */
  ghost predicate Leads(s: State, a: nat, id: nat) {
    && a in s.asks && id in s.calls
    && (s.asks[a].phase == Leading(id) || s.asks[a].phase == Closing(id))
    && s.calls[id].leader == a && s.calls[id].key == s.asks[a].key
  }

  /** A call belongs to its leader until it is done, and holds only what that ask may put there. */
  ghost predicate CallInv(s: State, id: nat)
    requires id in s.calls
  {
    var c := s.calls[id];
    && c.leader in s.asks
    && (!c.done ==> Leads(s, c.leader, id))
    && (c.done ==> c.result != Pending)
    && match c.result
       case Err(GaveUp(b)) =>
         b == c.leader && s.asks[b].ended && (c.done || s.asks[b].phase == Closing(id) ==> c.abandoned)
       case Err(Recent) => false
       case _ => true
  }

  ghost predicate AskInv(s: State, a: nat)
    requires a in s.asks
  {
    var q := s.asks[a];
    match q.phase
    case Leading(id) => Leads(s, a, id) && !s.calls[id].done && q.key in s.f.calls && s.f.calls[q.key] == id
    case Closing(id) => Leads(s, a, id) && !s.calls[id].done && s.calls[id].result != Pending
    case Waiting(id) => id in s.calls && s.calls[id].key == q.key
    case Answered(Err(GaveUp(b)), origin) => b == a && q.ended && origin == Own
    case Answered(r, Shared(id)) =>
      id in s.calls && s.calls[id].done && s.calls[id].key == q.key && r == s.calls[id].result
      && (r.Err? ==> !s.calls[id].abandoned)
    case _ => true
  }

  /** What the map holds under a key is led by an ask that is still fetching for that key. */
  ghost predicate FlightInv(s: State, k: Key)
    requires k in s.f.calls
  {
    var id := s.f.calls[k];
    id in s.calls && s.calls[id].key == k && !s.calls[id].done
    && s.calls[id].leader in s.asks && s.asks[s.calls[id].leader].phase == Leading(id)
  }

  ghost predicate Inv(s: State) {
    && (forall id <- s.calls :: CallInv(s, id))
    && (forall a <- s.asks :: AskInv(s, a))
    && (forall k <- s.f.calls :: FlightInv(s, k))
  }

  ghost predicate Remembered(s: State) {
    |s.f.failed| <= MAX_FAILURES && forall u <- s.f.failed :: s.f.failed[u] <= s.now + RETRY_AFTER
  }

  /** A step of a on which no call and no flight depends: a neither led before nor leads after. */
  lemma AskMoves(s: State, t: State, a: nat)
    requires Inv(s) && a in t.asks && t.asks == s.asks[a := t.asks[a]] && t.calls == s.calls && t.f.calls == s.f.calls
    requires a in s.asks ==>
      !s.asks[a].phase.Leading? && !s.asks[a].phase.Closing? && (s.asks[a].ended ==> t.asks[a].ended)
    requires !t.asks[a].phase.Leading? && !t.asks[a].phase.Closing? && AskInv(t, a)
    ensures Inv(t)
  {
    forall id <- t.calls ensures CallInv(t, id) {
      assert CallInv(s, id);
    }
    forall b <- t.asks ensures AskInv(t, b) {
      assert b != a ==> AskInv(s, b);
    }
    forall k <- t.f.calls ensures FlightInv(t, k) {
      assert FlightInv(s, k);
    }
  }

  lemma EndKeeps(s: State, a: nat)
    requires Inv(s) && Enabled(s, End(a))
    ensures Inv(After(s, End(a)))
  {
    var t := After(s, End(a));
    forall id <- t.calls ensures CallInv(t, id) {
      assert CallInv(s, id);
    }
    forall b <- t.asks ensures AskInv(t, b) {
      assert AskInv(s, b);
    }
    forall k <- t.f.calls ensures FlightInv(t, k) {
      assert FlightInv(s, k);
    }
  }

  lemma LeadKeeps(s: State, a: nat, id: nat)
    requires Inv(s) && Enabled(s, JoinFlight(a, id))
    requires Join(s.f, s.asks[a].key, s.asks[a].retryFailed, s.now, id).1.Lead?
    ensures Inv(After(s, JoinFlight(a, id)))
  {
    var t, key := After(s, JoinFlight(a, id)), s.asks[a].key;
    assert t.f.calls == s.f.calls[key := id];
    forall i <- t.calls ensures CallInv(t, i) {
      assert i != id ==> CallInv(s, i);
    }
    forall b <- t.asks ensures AskInv(t, b) {
      assert b != a ==> AskInv(s, b);
    }
    forall k <- t.f.calls ensures FlightInv(t, k) {
      assert k != key ==> FlightInv(s, k);
    }
  }

  lemma JoinKeeps(s: State, a: nat, id: nat)
    requires Inv(s) && Enabled(s, JoinFlight(a, id))
    ensures Inv(After(s, JoinFlight(a, id)))
  {
    var key := s.asks[a].key;
    var joined := Join(s.f, key, s.asks[a].retryFailed, s.now, id).1;
    if joined.Lead? {
      LeadKeeps(s, a, id);
    } else {
      if joined.Wait? {
        assert FlightInv(s, key);
      }
      AskMoves(s, After(s, JoinFlight(a, id)), a);
    }
  }

  lemma FetchKeepsCall(s: State, a: nat, result: Result, i: nat)
    requires Inv(s) && MayFetch(s, a, result) && i in s.calls
    ensures CallInv(Fetched(s, a, result), i)
  {
    assert AskInv(s, a) && CallInv(s, i);
  }

  lemma FetchKeepsAsk(s: State, a: nat, result: Result, b: nat)
    requires Inv(s) && MayFetch(s, a, result) && b in s.asks
    ensures AskInv(Fetched(s, a, result), b)
  {
    assert AskInv(s, a) && AskInv(s, b);
  }

  /** A step on the call a leads. */
  lemma FetchKeeps(s: State, a: nat, result: Result)
    requires Inv(s) && MayFetch(s, a, result)
    ensures Inv(Fetched(s, a, result))
  {
    var t := Fetched(s, a, result);
    forall i <- t.calls ensures CallInv(t, i) {
      FetchKeepsCall(s, a, result, i);
    }
    forall b <- t.asks ensures AskInv(t, b) {
      FetchKeepsAsk(s, a, result, b);
    }
    forall k <- t.f.calls ensures FlightInv(t, k) {
      assert FlightInv(s, k);
    }
  }

  lemma FinishKeepsCall(s: State, a: nat, i: nat)
    requires Inv(s) && MayFinish(s, a) && i in s.calls
    ensures CallInv(Finished(s, a), i)
  {
    assert AskInv(s, a) && CallInv(s, i);
  }

  lemma FinishKeepsAsk(s: State, a: nat, b: nat)
    requires Inv(s) && MayFinish(s, a) && b in s.asks
    ensures AskInv(Finished(s, a), b)
  {
    assert AskInv(s, a) && AskInv(s, b);
    assert CallInv(s, s.asks[a].phase.id);
  }

  lemma FinishKeepsFlight(s: State, a: nat, k: Key)
    requires Inv(s) && MayFinish(s, a) && k in s.f.calls && k != s.asks[a].key
    ensures k in Finished(s, a).f.calls && FlightInv(Finished(s, a), k)
  {
    assert AskInv(s, a) && FlightInv(s, k);
  }

  lemma FinishKeeps(s: State, a: nat)
    requires Inv(s) && MayFinish(s, a)
    ensures Inv(Finished(s, a))
  {
    var t := Finished(s, a);
    forall i <- t.calls ensures CallInv(t, i) {
      FinishKeepsCall(s, a, i);
    }
    forall b <- t.asks ensures AskInv(t, b) {
      FinishKeepsAsk(s, a, b);
    }
    forall k <- t.f.calls ensures FlightInv(t, k) {
      FinishKeepsFlight(s, a, k);
    }
  }

  lemma CloseKeepsCall(s: State, a: nat, i: nat)
    requires Inv(s) && MayClose(s, a) && i in s.calls
    ensures CallInv(Closed(s, a), i)
  {
    assert AskInv(s, a) && CallInv(s, i);
  }

  lemma CloseKeepsAsk(s: State, a: nat, b: nat)
    requires Inv(s) && MayClose(s, a) && b in s.asks
    ensures AskInv(Closed(s, a), b)
  {
    assert AskInv(s, a) && AskInv(s, b);
    assert CallInv(s, s.asks[a].phase.id);
  }

  lemma CloseKeeps(s: State, a: nat)
    requires Inv(s) && MayClose(s, a)
    ensures Inv(Closed(s, a))
  {
    var t := Closed(s, a);
    assert AskInv(s, a);
    forall i <- t.calls ensures CallInv(t, i) {
      CloseKeepsCall(s, a, i);
    }
    forall b <- t.asks ensures AskInv(t, b) {
      CloseKeepsAsk(s, a, b);
    }
    forall k <- t.f.calls ensures FlightInv(t, k) {
      assert FlightInv(s, k);
    }
  }

  /** Time passing and the cache making room touch no call and no ask. */
  lemma QuietKeeps(s: State, t: State)
    requires Inv(s) && t.f == s.f && t.calls == s.calls && t.asks == s.asks
    ensures Inv(t)
  {
    assert forall id <- t.calls :: CallInv(s, id) ==> CallInv(t, id);
    assert forall a <- t.asks :: AskInv(s, a) ==> AskInv(t, a);
    assert forall k <- t.f.calls :: FlightInv(s, k) ==> FlightInv(t, k);
  }

  /** Every step keeps the invariant. */
  lemma StepKeeps(s: State, step: Step)
    requires Inv(s) && Enabled(s, step)
    ensures Inv(After(s, step))
  {
    var t := After(s, step);
    match step
    case Tick(_) => QuietKeeps(s, t);
    case Evict(_) => QuietKeeps(s, t);
    case Arrive(a, _, _) => AskMoves(s, t, a);
    case End(a) => EndKeeps(s, a);
    case Look(a) => AskMoves(s, t, a);
    case JoinFlight(a, id) => JoinKeeps(s, a, id);
    case Fetch(a, result) => FetchKeeps(s, a, result);
    case Finish(a) => FinishKeeps(s, a);
    case Close(a) => CloseKeeps(s, a);
    case Released(a) =>
      assert AskInv(s, a);
      assert CallInv(s, s.asks[a].phase.id);
      AskMoves(s, t, a);
    case GiveUp(a) => AskMoves(s, t, a);
  }

  lemma {:induction false} RunKeeps(trace: seq<State>, steps: seq<Step>, i: nat)
    requires Run(trace, steps) && i < |trace|
    ensures Inv(trace[i])
  {
    if i > 0 {
      RunKeeps(trace, steps, i - 1);
      StepKeeps(trace[i - 1], steps[i - 1]);
    }
  }

  // --------------------------------------------------------------------- main results

  /** In every reachable state each key has at most one fetch in flight. */
  lemma OneFetchPerKey(trace: seq<State>, steps: seq<Step>, i: nat, a: nat, b: nat)
    requires Run(trace, steps) && i < |trace|
    requires var s := trace[i];
      && a in s.asks && s.asks[a].phase.Leading?
      && b in s.asks && s.asks[b].phase.Leading?
      && s.asks[a].key == s.asks[b].key
    ensures a == b
  {
    RunKeeps(trace, steps, i);
    assert AskInv(trace[i], a) && AskInv(trace[i], b);
  }

  /** From s to t the call id is there, unchanged when it was done, and done only by its leader's close. */
  ghost predicate Completes(s: State, t: State, step: Step, id: nat)
    requires id in s.calls
  {
    && id in t.calls
    && (s.calls[id].done ==> t.calls[id] == s.calls[id])
    && (!s.calls[id].done && t.calls[id].done ==>
          step == Close(s.calls[id].leader) && s.calls[id].result != Pending)
  }

  lemma FetchCompletes(s: State, a: nat, result: Result, id: nat)
    requires Inv(s) && MayFetch(s, a, result) && id in s.calls
    ensures Completes(s, Fetched(s, a, result), Fetch(a, result), id)
  {
    assert AskInv(s, a);
  }

  lemma FinishCompletes(s: State, a: nat, id: nat)
    requires Inv(s) && MayFinish(s, a) && id in s.calls
    ensures Completes(s, Finished(s, a), Finish(a), id)
  {
    assert AskInv(s, a);
  }

  lemma CloseCompletes(s: State, a: nat, id: nat)
    requires Inv(s) && MayClose(s, a) && id in s.calls
    ensures Completes(s, Closed(s, a), Close(a), id)
  {
    assert AskInv(s, a);
  }

  /** Any other step changes no call; joining may add one. */
  lemma OthersComplete(s: State, step: Step, id: nat)
    requires Enabled(s, step) && !step.Fetch? && !step.Finish? && !step.Close? && id in s.calls
    ensures Completes(s, After(s, step), step, id)
  {
  }

  lemma StepCompletes(s: State, step: Step, id: nat)
    requires Inv(s) && Enabled(s, step) && id in s.calls
    ensures Completes(s, After(s, step), step, id)
  {
    match step
    case Fetch(a, result) => FetchCompletes(s, a, result, id);
    case Finish(a) => FinishCompletes(s, a, id);
    case Close(a) => CloseCompletes(s, a, id);
    case _ => OthersComplete(s, step, id);
  }

  /** A call, once done, never changes, and is only ever made done by the ask that leads it. */
  lemma CompletedOnceByItsLeader(trace: seq<State>, steps: seq<Step>, i: nat, id: nat)
    requires Run(trace, steps) && i < |steps| && id in trace[i].calls
    ensures id in trace[i + 1].calls
    ensures trace[i].calls[id].done ==> trace[i + 1].calls[id] == trace[i].calls[id]
    ensures !trace[i].calls[id].done && trace[i + 1].calls[id].done ==>
      steps[i] == Close(trace[i].calls[id].leader) && trace[i].calls[id].result != Pending
  {
    RunKeeps(trace, steps, i);
    StepCompletes(trace[i], steps[i], id);
  }

  /** Every waiter waits on a call for its key that is done, so that it may go on, or whose leader may. */
  lemma WaitersAreNeverStranded(trace: seq<State>, steps: seq<Step>, i: nat, a: nat)
    requires Run(trace, steps) && i < |trace|
    requires a in trace[i].asks && trace[i].asks[a].phase.Waiting?
    ensures var s, id := trace[i], trace[i].asks[a].phase.id;
      && id in s.calls && s.calls[id].key == s.asks[a].key
      && var l := s.calls[id].leader;
      && (s.calls[id].done ==> Enabled(s, Released(a)))
      && (!s.calls[id].done ==> Enabled(s, Fetch(l, Err(FetchFailed))) || Enabled(s, Finish(l)) || Enabled(s, Close(l)))
  {
    RunKeeps(trace, steps, i);
    var s, id := trace[i], trace[i].asks[a].phase.id;
    assert AskInv(s, a);
    assert CallInv(s, id);
  }

  /**
   * No ask ever answers with the error of another that gave up; what it answers with from a shared
   * flight is that flight's own outcome, for its own key.
   */
  lemma NoAnswerIsAnothersGivingUp(trace: seq<State>, steps: seq<Step>, i: nat, a: nat)
    requires Run(trace, steps) && i < |trace|
    requires a in trace[i].asks && trace[i].asks[a].phase.Answered?
    ensures var p := trace[i].asks[a].phase;
      && (p.result.Err? && p.result.error.GaveUp? ==> p.result == Err(GaveUp(a)) && trace[i].asks[a].ended)
      && (p.origin.Shared? ==>
            var id := p.origin.id;
            && id in trace[i].calls && trace[i].calls[id].done && trace[i].calls[id].key == trace[i].asks[a].key
            && p.result == trace[i].calls[id].result
            && (p.result.Err? ==> p.result == Err(FetchFailed)))
  {
    RunKeeps(trace, steps, i);
    assert AskInv(trace[i], a);
    var p := trace[i].asks[a].phase;
    if p.origin.Shared? {
      assert CallInv(trace[i], p.origin.id);
    }
  }

  lemma StepRemembers(s: State, step: Step)
    requires Remembered(s) && Enabled(s, step)
    ensures Remembered(After(s, step))
  {
    if step.JoinFlight? {
      var q := s.asks[step.a];
      assert (s.f.failed - {q.key.url}).Keys == s.f.failed.Keys - {q.key.url};
      SubsetSize(s.f.failed.Keys - {q.key.url}, s.f.failed.Keys);
    } else if step.Finish? {
      MemoryBounded(s.f.failed, s.asks[step.a].key.url, s.now);
    }
  }

  /** In every reachable state the failure memory is within its bound, and nothing in it is for longer
      than its minute from now. */
  lemma {:induction false} MemoryIsBounded(trace: seq<State>, steps: seq<Step>, i: nat)
    requires Run(trace, steps) && i < |trace|
    ensures Remembered(trace[i])
  {
    if i > 0 {
      MemoryIsBounded(trace, steps, i - 1);
      StepRemembers(trace[i - 1], steps[i - 1]);
    }
  }

  lemma StepHolds(s: State, step: Step, u: Url)
    requires Remembered(s) && Enabled(s, step) && u in s.f.failed && s.now < s.f.failed[u]
    ensures var f := After(s, step).f; u in f.failed && f.failed[u] >= s.f.failed[u]
  {
    if step.JoinFlight? {
      var q := s.asks[step.a];
      FailuresLast(s.f, q.key, q.retryFailed, false, false, s.now, step.id, u);
    } else if step.Finish? {
      var q, c := s.asks[step.a], s.calls[s.asks[step.a].phase.id];
      FailuresLast(s.f, q.key, false, c.result.Err?, q.ended, s.now, 0, u);
    }
  }

  /** A failure u is remembered until then or longer, unless then has come. */
  ghost predicate HeldOff(s: State, u: Url, then_: int) {
    s.now < then_ ==> u in s.f.failed && s.f.failed[u] >= then_
  }

  lemma StepHoldsOff(s: State, step: Step, u: Url, then_: int)
    requires Remembered(s) && Enabled(s, step) && HeldOff(s, u, then_)
    ensures HeldOff(After(s, step), u, then_)
  {
    if s.now < then_ {
      StepHolds(s, step, u);
    }
    assert s.now <= After(s, step).now;
  }

  lemma {:induction false} FailureHolds(trace: seq<State>, steps: seq<Step>, i: nat, j: nat, u: Url, then_: int)
    requires Run(trace, steps) && i <= j < |trace| && HeldOff(trace[i], u, then_)
    ensures HeldOff(trace[j], u, then_)
  {
    if i < j {
      FailureHolds(trace, steps, i, j - 1, u, then_);
      MemoryIsBounded(trace, steps, j - 1);
      StepHoldsOff(trace[j - 1], steps[j - 1], u, then_);
    }
  }

  /**
   * Once a failure is remembered, no ask fetches that URL, at any size, before its time unless it
   * asked to retry: each that joins is answered with the recent failure at once.
   */
  lemma RememberedFailureHoldsOff(trace: seq<State>, steps: seq<Step>, i: nat, j: nat, u: Url)
    requires Run(trace, steps) && i <= j < |steps|
    requires u in trace[i].f.failed && trace[j].now < trace[i].f.failed[u]
    requires steps[j].JoinFlight?
    requires var q := trace[j].asks[steps[j].a]; q.key.url == u && !q.retryFailed
    ensures trace[j + 1].asks[steps[j].a].phase == Answered(Err(Recent), Own)
    ensures trace[j + 1].f == trace[j].f
  {
    FailureHolds(trace, steps, i, j, u, trace[i].f.failed[u]);
  }
}
