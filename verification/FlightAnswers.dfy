/**
 * What a fetch leaves behind and what asks are answered with
 * (internal/api/handlers_community_covers.go:97-125, 200-253): which failures are remembered, for
 * whom and how long, and where every answer comes from.
 */
module FlightAnswers {
  import opened Basics
  import opened SingleFlight
  import opened FlightProtocol

  // ------------------------------------------------------------- which failures are remembered

  /** The URLs a failure of is still remembered at now. */
  function Unexpired(failed: map<Url, int>, now: int): set<Url> {
    set u | u in failed && now < failed[u]
  }

  lemma ExpireKeeps(failed: map<Url, int>, now: int)
    ensures Expire(failed, now).Keys == Unexpired(failed, now)
    ensures |Unexpired(failed, now)| <= |failed|
  {
    assert Expire(failed, now).Keys == Unexpired(failed, now);
    SubsetSize(Unexpired(failed, now), failed.Keys);
    assert |failed| == |failed.Keys|;
  }

  lemma RememberExactly(failed: map<Url, int>, url: Url, now: int)
    ensures var m := Remember(failed, url, now);
      if |Unexpired(failed, now)| < MAX_FAILURES
      then url in m && m[url] == now + RETRY_AFTER
      else m == Expire(failed, now)
    ensures forall u <- Remember(failed, url, now) :: u != url ==>
      u in failed && Remember(failed, url, now)[u] == failed[u]
  {
    ExpireKeeps(failed, now);
    assert |Expire(failed, now)| == |Expire(failed, now).Keys|;
  }

  /**
   * Finishing remembers the URL exactly when the fetch failed while its leader's request was live
   * and the memory has room once what has expired is gone: for a minute from then. Nothing is
   * remembered of a fetch that came to something, or of one given up.
   */
  lemma FinishRemembersExactly(s: State, a: nat)
    requires Enabled(s, Finish(a))
    ensures var q, failed := s.asks[a], After(s, Finish(a)).f.failed;
      var erred := s.calls[q.phase.id].result.Err?;
      && (!erred || q.ended ==> failed == s.f.failed)
      && (erred && !q.ended && |Unexpired(s.f.failed, s.now)| < 512 ==>
            q.key.url in failed && failed[q.key.url] == s.now + 60_000_000_000)
      && (erred && !q.ended && |Unexpired(s.f.failed, s.now)| >= 512 ==> failed == Expire(s.f.failed, s.now))
  {
    RememberExactly(s.f.failed, s.asks[a].key.url, s.now);
  }

  /**
   * Main result: from the moment a live request's fetch fails, with room in the memory, no ask that
   * does not retry fetches the URL, at any size, for a whole minute: each is answered at
   * once with the recent failure.
   */
  lemma FailedFetchHoldsOff(trace: seq<State>, steps: seq<Step>, i: nat, j: nat)
    requires Run(trace, steps) && i < j < |steps| && steps[i].Finish? && steps[j].JoinFlight?
    requires var s, q := trace[i], trace[i].asks[steps[i].a];
      && s.calls[q.phase.id].result.Err? && !q.ended && |Unexpired(s.f.failed, s.now)| < 512
      && trace[j].now < s.now + 60_000_000_000
      && trace[j].asks[steps[j].a].key.url == q.key.url && !trace[j].asks[steps[j].a].retryFailed
    ensures trace[j + 1].asks[steps[j].a].phase == Answered(Err(Recent), Own)
    ensures trace[j + 1].f == trace[j].f
  {
    assert trace[i + 1] == After(trace[i], steps[i]);
    FinishRemembersExactly(trace[i], steps[i].a);
    RememberedFailureHoldsOff(trace, steps, i + 1, j, trace[i].asks[steps[i].a].key.url);
  }

  /** A failure whose time is over is forgotten by the first join that does not retry. */
  lemma JoinForgets(f: Flights, key: Key, now: int, id: nat)
    ensures key.url in Join(f, key, false, now, id).0.failed ==> now < f.failed[key.url]
  {
  }

  // ------------------------------------------------------------- where answers come from

  /** a led call id, which came to r. */
  ghost predicate Led(s: State, a: nat, id: nat, r: Result) {
    id in s.calls && s.calls[id].leader == a && s.calls[id].done && s.calls[id].result == r
  }

  /** An answer of a's own comes from a call it led; a recent failure is told only to an ask that
      does not retry. */
  ghost predicate AnswerInv(s: State, a: nat)
    requires a in s.asks
  {
    match s.asks[a].phase
    case Answered(Err(Recent), origin) => origin == Own && !s.asks[a].retryFailed
    case Answered(Err(GaveUp(_)), _) => true
    case Answered(r, Own) => exists id :: Led(s, a, id, r)
    case _ => true
  }

  /** Answers given stay earned, the calls done staying as they are. */
  lemma AnswerStays(s: State, t: State, a: nat)
    requires a in s.asks && AnswerInv(s, a) && a in t.asks
    requires t.asks[a].phase == s.asks[a].phase && t.asks[a].retryFailed == s.asks[a].retryFailed
    requires forall id <- s.calls :: s.calls[id].done ==> id in t.calls && t.calls[id] == s.calls[id]
    ensures AnswerInv(t, a)
  {
    var p := s.asks[a].phase;
    if p.Answered? && p.origin.Own? && (p.result.Err? ==> p.result.error.FetchFailed?) {
      var id :| Led(s, a, id, p.result);
      assert Led(t, a, id, p.result);
    }
  }

  lemma CloseAnswers(s: State, a: nat)
    requires Inv(s) && MayClose(s, a)
    ensures AnswerInv(Closed(s, a), a)
  {
    var id := s.asks[a].phase.id;
    assert AskInv(s, a) && CallInv(s, id);
    assert Led(Closed(s, a), a, id, s.calls[id].result);
  }

  lemma ReleasedAnswers(s: State, a: nat)
    requires Inv(s) && Enabled(s, Released(a))
    ensures AnswerInv(After(s, Released(a)), a)
  {
    assert CallInv(s, s.asks[a].phase.id);
  }

  lemma JoinAnswers(s: State, a: nat, id: nat)
    requires Enabled(s, JoinFlight(a, id))
    ensures AnswerInv(After(s, JoinFlight(a, id)), a)
  {
  }

  /** The ask a step is of, and any one ask's phase and whether it retries. */
  predicate StepOf(step: Step, a: nat) {
    !step.Tick? && !step.Evict? && step.a == a
  }

  predicate Moves(step: Step) {
    step.Look? || step.JoinFlight? || step.Finish? || step.Close? || step.Released? || step.GiveUp? || step.Arrive?
  }

  /** Only its own ask moves in a step, and only in some. */
  lemma OthersStand(s: State, step: Step, a: nat)
    requires Enabled(s, step) && a in s.asks && !(StepOf(step, a) && Moves(step))
    ensures var t := After(s, step);
      a in t.asks && t.asks[a].phase == s.asks[a].phase && t.asks[a].retryFailed == s.asks[a].retryFailed
  {
  }

  lemma ItsAnswer(s: State, step: Step)
    requires Inv(s) && Enabled(s, step) && Moves(step)
    ensures step.a in After(s, step).asks && AnswerInv(After(s, step), step.a)
  {
    match step
    case Close(a) => CloseAnswers(s, a);
    case Released(a) => ReleasedAnswers(s, a);
    case JoinFlight(a, id) => JoinAnswers(s, a, id);
    case _ =>
  }

  lemma StepAnswers(s: State, step: Step, a: nat)
    requires Inv(s) && Enabled(s, step) && a in s.asks && AnswerInv(s, a)
    ensures a in After(s, step).asks && AnswerInv(After(s, step), a)
  {
    if StepOf(step, a) && Moves(step) {
      ItsAnswer(s, step);
    } else {
      OthersStand(s, step, a);
      forall id <- s.calls ensures Completes(s, After(s, step), step, id) {
        StepCompletes(s, step, id);
      }
      AnswerStays(s, After(s, step), a);
    }
  }

  lemma NewAsk(s: State, step: Step, a: nat)
    requires Enabled(s, step) && a !in s.asks && a in After(s, step).asks
    ensures AnswerInv(After(s, step), a)
  {
  }

  lemma {:induction false} RunAnswers(trace: seq<State>, steps: seq<Step>, i: nat, a: nat)
    requires Run(trace, steps) && i < |trace| && a in trace[i].asks
    ensures AnswerInv(trace[i], a)
  {
    if i > 0 {
      RunKeeps(trace, steps, i - 1);
      assert Enabled(trace[i - 1], steps[i - 1]);
      if a in trace[i - 1].asks {
        RunAnswers(trace, steps, i - 1, a);
        StepAnswers(trace[i - 1], steps[i - 1], a);
      } else {
        NewAsk(trace[i - 1], steps[i - 1], a);
      }
    }
  }

  /**
   * Main result: in every reachable state, an ask's answer of its own is what a call it led itself
   * came to, or its own giving up, or, unless it retries, a recent failure; a retrying ask is never
   * answered with a recent failure.
   */
  lemma AnswersAreEarned(trace: seq<State>, steps: seq<Step>, i: nat, a: nat)
    requires Run(trace, steps) && i < |trace|
    requires a in trace[i].asks && trace[i].asks[a].phase.Answered?
    ensures var p, s := trace[i].asks[a].phase, trace[i];
      && (p.result == Err(Recent) ==> p.origin.Own? && !s.asks[a].retryFailed)
      && (p.origin.Own? && (p.result.Thumb? || p.result == Err(FetchFailed)) ==> exists id :: Led(s, a, id, p.result))
  {
    RunAnswers(trace, steps, i, a);
  }

  /** A recent failure is told only by a join, of a URL whose failure is remembered right then. */
  lemma RecentIsRemembered(s: State, step: Step, a: nat)
    requires Inv(s) && Enabled(s, step) && a in s.asks && !s.asks[a].phase.Answered?
    requires a in After(s, step).asks && After(s, step).asks[a].phase.Answered?
    requires After(s, step).asks[a].phase.result == Err(Recent)
    ensures step.JoinFlight? && step.a == a && !s.asks[a].retryFailed
    ensures var u := s.asks[a].key.url; u in s.f.failed && s.now < s.f.failed[u]
  {
    if !(StepOf(step, a) && Moves(step)) {
      OthersStand(s, step, a);
    } else {
      OwnStepTells(s, step);
    }
  }

  lemma OwnStepTells(s: State, step: Step)
    requires Inv(s) && Enabled(s, step) && Moves(step) && step.a in s.asks
    ensures var p := After(s, step).asks[step.a].phase;
      p.Answered? && p.result == Err(Recent) ==>
        var q := s.asks[step.a];
        step.JoinFlight? && !q.retryFailed && q.key.url in s.f.failed && s.now < s.f.failed[q.key.url]
  {
    match step
    case Close(a) => CloseTells(s, a);
    case Released(a) => ReleasedTells(s, a);
    case _ =>
  }

  lemma CloseTells(s: State, a: nat)
    requires Inv(s) && MayClose(s, a)
    ensures Closed(s, a).asks[a].phase.result != Err(Recent)
  {
    assert CallInv(s, s.asks[a].phase.id);
  }

  lemma ReleasedTells(s: State, a: nat)
    requires Inv(s) && Enabled(s, Released(a))
    ensures var p := After(s, Released(a)).asks[a].phase; p.Answered? ==> p.result != Err(Recent)
  {
    assert CallInv(s, s.asks[a].phase.id);
  }

  /** A waiter whose leader gave up, its own request live, goes back to look and ask again. */
  lemma AbandonedWaiterAsksAgain(s: State, a: nat)
    requires Enabled(s, Released(a))
    ensures var c, q := s.calls[s.asks[a].phase.id], s.asks[a];
      && (c.result.Err? && c.abandoned && !q.ended ==> After(s, Released(a)).asks[a].phase.Start?)
      && (!(c.result.Err? && c.abandoned) ==>
        After(s, Released(a)).asks[a].phase == Answered(c.result, Shared(q.phase.id)))
  {
  }

  // ------------------------------------------------------------- the thumbnail cache

  /** An ask of key's fetched the thumbnail in one of the steps before i. */
  ghost predicate WasFetched(trace: seq<State>, steps: seq<Step>, i: nat, key: Key, jpg: Option<Bytes>)
    requires Run(trace, steps) && i < |trace|
  {
    exists k :: 0 <= k < i && FetchedAt(trace[k], steps[k], key, jpg)
  }

  ghost predicate FetchedAt(s: State, step: Step, key: Key, jpg: Option<Bytes>) {
    step.Fetch? && step.a in s.asks && s.asks[step.a].key == key && step.result == Thumb(jpg)
  }

  lemma StepCaches(s: State, step: Step, key: Key)
    requires Enabled(s, step)
    ensures var was, held := s.cached, After(s, step).cached;
      && (key in held ==> (key in was && held[key] == was[key]) || FetchedAt(s, step, key, held[key]))
      && (key in was && step != Evict(key) ==> key in held)
      && (forall jpg :: FetchedAt(s, step, key, jpg) ==> key in held && held[key] == jpg)
  {
  }

  /** Whatever the cache holds was held at the start or fetched for its key. */
  lemma {:induction false} CachedWasFetched(trace: seq<State>, steps: seq<Step>, i: nat, key: Key)
    requires Run(trace, steps) && i < |trace| && key in trace[i].cached
    ensures (key in trace[0].cached && trace[i].cached[key] == trace[0].cached[key])
         || WasFetched(trace, steps, i, key, trace[i].cached[key])
  {
    if i > 0 {
      assert Enabled(trace[i - 1], steps[i - 1]) && trace[i] == After(trace[i - 1], steps[i - 1]);
      StepCaches(trace[i - 1], steps[i - 1], key);
      if !FetchedAt(trace[i - 1], steps[i - 1], key, trace[i].cached[key]) {
        CachedWasFetched(trace, steps, i - 1, key);
      }
    }
  }

  lemma {:induction false} CachedStays(trace: seq<State>, steps: seq<Step>, i: nat, j: nat, key: Key)
    requires Run(trace, steps) && i <= j < |trace| && key in trace[i].cached
    requires forall k :: i <= k < j ==> steps[k] != Evict(key)
    ensures key in trace[j].cached
    decreases j
  {
    if i < j {
      CachedStays(trace, steps, i, j - 1, key);
      assert Enabled(trace[j - 1], steps[j - 1]) && trace[j] == After(trace[j - 1], steps[j - 1]);
      StepCaches(trace[j - 1], steps[j - 1], key);
    }
  }

  /**
   * Main result: once a thumbnail is fetched, no art among them, every ask for its key is answered
   * at once when it looks, until it is evicted, with one that was fetched for that key.
   */
  lemma FetchedIsServed(trace: seq<State>, steps: seq<Step>, i: nat, j: nat)
    requires Run(trace, steps) && i < j < |steps|
    requires steps[i].Fetch? && steps[i].result.Thumb? && steps[j].Look?
    requires var key := trace[i].asks[steps[i].a].key;
      trace[j].asks[steps[j].a].key == key && forall k :: i <= k < j ==> steps[k] != Evict(key)
    ensures var key, p := trace[i].asks[steps[i].a].key, trace[j + 1].asks[steps[j].a].phase;
      && p.Answered? && p.origin.Cached? && p.result.Thumb?
      && ((key in trace[0].cached && p.result.jpg == trace[0].cached[key])
          || WasFetched(trace, steps, j, key, p.result.jpg))
  {
    var key := trace[i].asks[steps[i].a].key;
    assert Enabled(trace[i], steps[i]) && trace[i + 1] == After(trace[i], steps[i]);
    StepCaches(trace[i], steps[i], key);
    assert FetchedAt(trace[i], steps[i], key, steps[i].result.jpg);
    CachedStays(trace, steps, i + 1, j, key);
    CachedWasFetched(trace, steps, j, key);
    assert Enabled(trace[j], steps[j]) && trace[j + 1] == After(trace[j], steps[j]);
  }
}
