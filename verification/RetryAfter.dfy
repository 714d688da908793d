/**
 * What a refused client is told to wait (internal/api/ratelimit.go:113-121, 258-285): the limiter's
 * Wait, Retry-After in whole seconds, and what the limiter, sweeping and all, answers once they are
 * over, after any calls before and any calls on other keys in between.
 */
module RetryAfter {
  import opened Basics
  import opened TokenBucket

  // ------------------------------------------------------------------ a bucket's wait

  /** The exact wait, in nanoseconds, of a bucket with less than a token. */
  function ExactWait(p: Limits, b: Bucket): real
    requires p.rate > 0.0
  {
    (1.0 - b.tokens) / p.rate * 1_000_000_000.0
  }

  predicate ReadyAt(p: Limits, b: Bucket, t: int) {
    Refilled(p, b, t).tokens >= 1.0
  }

  /** A bucket below one token is ready again exactly once its exact wait is over. */
  lemma ReadyExactly(p: Limits, b: Bucket, t: int)
    requires p.Valid() && b.tokens < 1.0
    ensures ReadyAt(p, b, t) <==> (t - b.last) as real >= ExactWait(p, b)
  {
    var x, w := (t - b.last) as real / 1_000_000_000.0, (1.0 - b.tokens) / p.rate;
    assert w * p.rate == 1.0 - b.tokens;
    assert Gain(p, t - b.last) == x * p.rate;
    if x >= w {
      ScaleUp(w, x, p.rate);
    } else {
      assert (w - x) * p.rate > 0.0;
      assert (w - x) * p.rate == w * p.rate - x * p.rate;
    }
  }

  lemma DivideUp(a: real, b: real, rate: real)
    requires rate > 0.0 && a <= b
    ensures a / rate <= b / rate
  {
    var x, y := a / rate, b / rate;
    assert x * rate == a && y * rate == b;
  }

  /** A wait is never longer than the idle TTL, so nobody's bucket is dropped while they wait. */
  lemma WaitWithinTTL(p: Limits, b: Bucket)
    requires p.Valid() && -p.burst <= b.tokens
    ensures 0 <= WaitOf(p, b) <= IdleTTL(p)
  {
    if b.tokens < 1.0 {
      DivideUp(1.0 - b.tokens, 2.0 * p.burst, p.rate);
      assert 2.0 * p.burst / p.rate == p.burst / p.rate * 2.0;
    }
  }

  // ------------------------------------------------------------------ calls on other keys

  /** The limiter after more events. */
  function Later(l: Limiter, events: seq<Event>): Limiter {
    if events == [] then l
    else
      var n, e := |events| - 1, events[|events| - 1];
      Later(l, events[..n]).Do(e.key, e.kind, e.now)
  }

  lemma {:induction false} LaterMore(l: Limiter, events: seq<Event>, e: Event)
    ensures Later(l, events + [e]) == Later(l, events).Do(e.key, e.kind, e.now)
  {
    assert (events + [e])[..|events|] == events;
  }

  lemma {:induction false} LaterAfter(p: Limits, events: seq<Event>, more: seq<Event>)
    ensures LimiterAfter(p, events + more) == Later(LimiterAfter(p, events), more)
  {
    if more == [] {
      assert events + more == events;
    } else {
      var rest, e := more[..|more| - 1], more[|more| - 1];
      LaterAfter(p, events, rest);
      LaterMore(LimiterAfter(p, events), rest, e);
      Append(p, events + rest, e);
      assert more == rest + [e] && events + more == events + rest + [e];
    }
  }

  /** Calls on other keys, from now to t. */
  ghost predicate Others(events: seq<Event>, key: Key, now: int, t: int) {
    forall i :: 0 <= i < |events| ==> events[i].key != key && now <= events[i].now <= t
  }

  /** They leave key's bucket alone, or drop it when it has been idle for longer than its TTL. */
  lemma {:induction false} OthersLeave(l: Limiter, others: seq<Event>, key: Key, now: int, t: int)
    requires key in l.buckets && l.buckets[key].last == now && Others(others, key, now, t)
    ensures var m := Later(l, others);
      && m.limits == l.limits && m.idleTTL == l.idleTTL
      && (key in m.buckets ==> m.buckets[key] == l.buckets[key])
      && (key !in m.buckets ==> t - now > l.idleTTL)
  {
    if others != [] {
      var n, e := |others| - 1, others[|others| - 1];
      OthersLeave(l, others[..n], key, now, t);
    }
  }

  /** What the limiter then finds: the bucket refilled since, or a new one after its TTL. */
  lemma {:induction false} OthersSee(l: Limiter, others: seq<Event>, key: Key, now: int, t: int)
    requires key in l.buckets && l.buckets[key].last == now && Others(others, key, now, t) && now <= t
    ensures var b := Later(l, others).Sees(key, t);
      b == Refilled(l.limits, l.buckets[key], t) || (t - now > l.idleTTL && b == Bucket(l.limits.burst, t))
  {
    OthersLeave(l, others, key, now, t);
  }

  /** After the run: a call on key at now, others' calls, and then a Ready at t. */
  function ReadyLater(p: Limits, events: seq<Event>, call: Event, others: seq<Event>, t: int): bool {
    Given(p, events + [call] + others, Event(call.key, Ready, t)) == Verdict(true)
  }

  /** The bucket a call leaves. */
  function Left(p: Limits, events: seq<Event>, call: Event): Bucket {
    Spent(p, LimiterAfter(p, events).Sees(call.key, call.now), call.kind)
  }

  ghost predicate Sequel(events: seq<Event>, call: Event, others: seq<Event>, t: int, start: int) {
    InOrder(events, start) && EndOf(events, start) <= call.now <= t && Others(others, call.key, call.now, t)
  }

  lemma {:induction false} LeftBounds(p: Limits, events: seq<Event>, call: Event, start: int)
    requires p.Valid() && InOrder(events, start) && EndOf(events, start) <= call.now
    ensures var l, b := LimiterAfter(p, events), Left(p, events, call);
      && l.limits == p && l.idleTTL == IdleTTL(p)
      && -p.burst <= b.tokens <= p.burst && b.last == call.now
  {
    var l := LimiterAfter(p, events);
    LimiterSound(p, events, start);
    SweepSound(l, EndOf(events, start), call.now);
    NextSound(p, Sweep(l, call.now).buckets, call.key, call.kind, call.now, call.now);
    var m := Next(p, Sweep(l, call.now).buckets, call.key, call.kind, call.now);
    assert m[call.key] == Left(p, events, call);
  }

  /** The later Ready is the bucket's, or it comes after the TTL and finds a full one. */
  lemma ReadyLaterIs(p: Limits, events: seq<Event>, call: Event, others: seq<Event>, t: int, start: int)
    requires p.Valid() && Sequel(events, call, others, t, start)
    ensures t - call.now <= IdleTTL(p) ==>
      (ReadyLater(p, events, call, others, t) <==> ReadyAt(p, Left(p, events, call), t))
    ensures ReadyAt(p, Left(p, events, call), t) ==> ReadyLater(p, events, call, others, t)
  {
    LeftBounds(p, events, call, start);
    var l := LimiterAfter(p, events);
    Append(p, events, call);
    LaterAfter(p, events + [call], others);
    OthersSee(l.Do(call.key, call.kind, call.now), others, call.key, call.now, t);
  }

  // ------------------------------------------------------------------ main results

  /** The wait the limiter answers a Wait on key at now. */
  function Quoted(p: Limits, events: seq<Event>, key: Key, now: int): int {
    WaitOf(p, LimiterAfter(p, events).Sees(key, now))
  }

  /** A client with less than a token whose wait the day's cap does not cut. */
  predicate Uncapped(p: Limits, events: seq<Event>, key: Key, now: int)
    requires p.rate > 0.0
  {
    var b := LimiterAfter(p, events).Sees(key, now);
    b.tokens < 1.0 && ExactWait(p, b) <= DAY as real
  }

  /**
   * Main result: after any calls, a Wait under the day's cap is honest: whatever calls on other
   * keys follow, no Ready before the wait is over succeeds and every Ready more than it does; at
   * the very nanosecond it ends, exactly when truncating lost nothing.
   */
  lemma {:induction false} WaitIsHonest(p: Limits, events: seq<Event>, key: Key, now: int, others: seq<Event>, t: int,
                                        start: int)
    requires p.Valid() && Sequel(events, Event(key, Wait, now), others, t, start) && Uncapped(p, events, key, now)
    ensures var d, asked := Quoted(p, events, key, now), Event(key, Wait, now);
      && Given(p, events, asked) == Delay(d)
      && (t < now + d ==> !ReadyLater(p, events, asked, others, t))
      && (t > now + d ==> ReadyLater(p, events, asked, others, t))
      && (t == now + d ==>
           (ReadyLater(p, events, asked, others, t) <==>
             d as real == ExactWait(p, LimiterAfter(p, events).Sees(key, now))))
  {
    var asked := Event(key, Wait, now);
    LeftBounds(p, events, asked, start);
    var b := Left(p, events, asked);
    ReadyLaterIs(p, events, asked, others, t, start);
    ReadyExactly(p, b, t);
    WaitWithinTTL(p, b);
  }

  /** After any run, a wait of nothing is answered exactly when the key is ready now, or would be
      within the nanosecond. */
  lemma {:induction false} WaitIsNothingExactly(p: Limits, events: seq<Event>, key: Key, now: int, start: int)
    requires p.Valid() && InOrder(events, start)
    ensures var ready := Given(p, events, Event(key, Ready, now)) == Verdict(true);
      && (ready ==> Given(p, events, Event(key, Wait, now)) == Delay(0))
      && (Given(p, events, Event(key, Wait, now)) == Delay(0) <==>
           ready || ExactWait(p, LimiterAfter(p, events).Sees(key, now)) < 1.0)
  {
    LimiterSound(p, events, start);
  }

  /** After any run, capped or not, nothing is ready before the wait it was told is over. */
  lemma NotReadyBeforeWait(p: Limits, events: seq<Event>, key: Key, now: int, others: seq<Event>, t: int, start: int)
    requires p.Valid() && Sequel(events, Event(key, Wait, now), others, t, start)
    requires t < now + Quoted(p, events, key, now)
    ensures !ReadyLater(p, events, Event(key, Wait, now), others, t)
  {
    var asked := Event(key, Wait, now);
    LeftBounds(p, events, asked, start);
    var b := Left(p, events, asked);
    ReadyLaterIs(p, events, asked, others, t, start);
    ReadyExactly(p, b, t);
    WaitWithinTTL(p, b);
  }

  /** Past the cap the answer is a day, and a day's wait is never enough. */
  lemma {:induction false} CappedWaitFallsShort(p: Limits, events: seq<Event>, key: Key, now: int, others: seq<Event>,
                                                start: int)
    requires p.Valid() && Sequel(events, Event(key, Wait, now), others, now + DAY, start)
    requires LimiterAfter(p, events).Sees(key, now).tokens < 1.0
    ensures !Uncapped(p, events, key, now) <==>
      Quoted(p, events, key, now) == DAY && !ReadyLater(p, events, Event(key, Wait, now), others, now + DAY)
  {
    var asked := Event(key, Wait, now);
    LeftBounds(p, events, asked, start);
    var b := Left(p, events, asked);
    ReadyLaterIs(p, events, asked, others, now + DAY, start);
    ReadyExactly(p, b, now + DAY);
    WaitWithinTTL(p, b);
  }

  /** A charge shuts a key out for no longer than burst+1 tokens take to accrue, others' calls or not. */
  lemma ChargeShutsOutBriefly(p: Limits, events: seq<Event>, key: Key, now: int, others: seq<Event>, t: int, start: int)
    requires p.Valid() && Sequel(events, Event(key, Charge, now), others, t, start)
    requires Gain(p, t - now) >= p.burst + 1.0
    ensures ReadyLater(p, events, Event(key, Charge, now), others, t)
  {
    LeftBounds(p, events, Event(key, Charge, now), start);
    ReadyLaterIs(p, events, Event(key, Charge, now), others, t, start);
  }

  /** Retry-After: a duration in whole seconds, rounded up, at least one. */
  function RetrySeconds(ns: int): int {
    Max((ns + SECOND - 1) / SECOND, 1)
  }

  lemma RetryCoversWait(ns: int)
    requires ns >= 0
    ensures RetrySeconds(ns) * SECOND >= ns && (RetrySeconds(ns) - 1) * SECOND < Max(ns, 1)
    ensures RetrySeconds(ns) * SECOND == ns <==> ns > 0 && ns % SECOND == 0
  {
  }

  /** A client told its wait at now, back after its Retry-After. */
  function BackInTime(p: Limits, events: seq<Event>, key: Key, now: int, others: seq<Event>): bool {
    ReadyLater(p, events, Event(key, Wait, now), others, now + RetrySeconds(Quoted(p, events, key, now)) * SECOND)
  }

  /**
   * Main result: a client that waits the Retry-After it was given is let through, whatever calls on
   * other keys come between, unless its wait was truncated to a whole number of seconds: exactly
   * then it comes back too soon.
   */
  lemma {:induction false} RetryAfterSuffices(p: Limits, events: seq<Event>, key: Key, now: int, others: seq<Event>,
                                              start: int)
    requires p.Valid() && Uncapped(p, events, key, now)
    requires var back := now + RetrySeconds(Quoted(p, events, key, now)) * SECOND;
      Sequel(events, Event(key, Wait, now), others, back, start)
    ensures var d := Quoted(p, events, key, now);
      BackInTime(p, events, key, now, others) <==>
        !(d > 0 && d % SECOND == 0 && d as real < ExactWait(p, LimiterAfter(p, events).Sees(key, now)))
  {
    var d := Quoted(p, events, key, now);
    LeftBounds(p, events, Event(key, Wait, now), start);
    WaitWithinTTL(p, Left(p, events, Event(key, Wait, now)));
    RetryCoversWait(d);
    WaitIsHonest(p, events, key, now, others, now + RetrySeconds(d) * SECOND, start);
  }

  /** Six charges, and a Wait a third of a second later, less a fraction of a nanosecond. */
  lemma ShortOfASecond()
    ensures var p, events, now := Limits(3.0, 3.0), Burst(Charge, 0, 6), 333_333_333;
      LimiterAfter(p, events).Sees("", now) == Bucket(-2.000_000_001, now)
  {
    var p, l := Limits(3.0, 3.0), LimiterAfter(Limits(3.0, 3.0), Burst(Charge, 0, 6));
    ChargedState(p, 6);
    assert Sweep(l, 333_333_333) == l;
  }

  lemma WaitOfAWholeSecond()
    ensures var p, b := Limits(3.0, 3.0), Bucket(-2.000_000_001, 333_333_333);
      WaitOf(p, b) == SECOND && SECOND as real < ExactWait(p, b) <= DAY as real
  {
    assert 1.0 < (1.0 + 2.000_000_001) / 3.0 < 1.000_000_001;
  }

  lemma ThatRun()
    ensures var p, events, now := Limits(3.0, 3.0), Burst(Charge, 0, 6), 333_333_333;
      && InOrder(events, 0) && Uncapped(p, events, "", now) && Quoted(p, events, "", now) == SECOND
      && SECOND as real < ExactWait(p, LimiterAfter(p, events).Sees("", now))
  {
    ShortOfASecond();
    WaitOfAWholeSecond();
  }

  /** A run after which it does. */
  lemma RetryAfterCanBeShort()
    ensures var p, events, now := Limits(3.0, 3.0), Burst(Charge, 0, 6), 333_333_333;
      && p.Valid() && InOrder(events, 0) && Uncapped(p, events, "", now)
      && Quoted(p, events, "", now) == SECOND && !BackInTime(p, events, "", now, [])
  {
    var p, events, now := Limits(3.0, 3.0), Burst(Charge, 0, 6), 333_333_333;
    ThatRun();
    RetryAfterSuffices(p, events, "", now, [], 0);
  }
}
