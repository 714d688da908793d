/**
 * The failure lockout of internal/api/ratelimit.go:12-163, which throttles sign-in, code
 * redemption and account creation: after maxFailures within the window a key is refused
 * until the window has passed since its last failure. `Limiter` is the lockout as a value,
 * with the entries it drops on the way; `Ledger` is the specification, which drops nothing;
 * the class `FailureLimiter` is the server's object.
 */
module Lockout {
  import opened Basics

  type Key = string

  datatype Config = Config(maxFailures: int, window: int)

  datatype Entry = Entry(failures: int, until: Option<int>, last: int)

  datatype Kind = Allowed | Acquire | LockedFor | Fail | Reset
  datatype Answer = Verdict(ok: bool) | Remaining(ns: int) | Noted

  predicate Stale(c: Config, e: Entry, now: int) {
    now - e.last > c.window
  }

  predicate Locked(e: Entry, now: int) {
    e.until.Some? && now < e.until.value
  }

  /** e, or a new entry for none or a stale one, with one failure more. */
  function Struck(c: Config, e: Option<Entry>, now: int): Entry {
    var e := if e.None? || Stale(c, e.value, now) then Entry(0, None, 0) else e.value;
    var failures := e.failures + 1;
    Entry(failures, if failures >= c.maxFailures then Some(now + c.window) else e.until, now)
  }

  function Left(e: Entry, now: int): int {
    if e.until.Some? then Max(e.until.value - now, 0) else 0
  }

  // ------------------------------------------- the specification: nothing is dropped

  type Ledger = map<Key, Entry>

  function Lookup(m: Ledger, key: Key): Option<Entry> {
    if key in m then Some(m[key]) else None
  }

  predicate Free(m: Ledger, key: Key, now: int) {
    key in m ==> !Locked(m[key], now)
  }

  function AnswerOf(m: Ledger, key: Key, kind: Kind, now: int): Answer {
    match kind
    case Allowed => Verdict(Free(m, key, now))
    case Acquire => Verdict(Free(m, key, now))
    case LockedFor => Remaining(if key in m then Left(m[key], now) else 0)
    case _ => Noted
  }

  function Next(c: Config, m: Ledger, key: Key, kind: Kind, now: int): Ledger {
    match kind
    case Fail => m[key := Struck(c, Lookup(m, key), now)]
    case Acquire => if Free(m, key, now) then m[key := Struck(c, Lookup(m, key), now)] else m
    case Reset => m - {key}
    case _ => m
  }

  /** An entry is locked exactly from its maxFailures-th failure, until a window after its last. */
  ghost predicate Sound(c: Config, m: Ledger, now: int) {
    forall k <- m ::
      && m[k].until == (if m[k].failures >= c.maxFailures then Some(m[k].last + c.window) else None)
      && m[k].last <= now && m[k].failures >= 1
  }

  lemma NextSound(c: Config, m: Ledger, key: Key, kind: Kind, then_: int, now: int)
    requires Sound(c, m, then_) && then_ <= now
    ensures Sound(c, Next(c, m, key, kind, now), now)
  {
  }

  // --------------------------------------------------------- the limiter as it runs

  datatype Limiter = Limiter(config: Config, entries: Ledger, lastSweep: Option<int>)

  /** Stale, unlocked entries, dropped at most once per window. */
  function Sweep(l: Limiter, now: int): Limiter {
    if l.lastSweep.Some? && now - l.lastSweep.value < l.config.window then l
    else l.(lastSweep := Some(now),
            entries := map k | k in l.entries && (Locked(l.entries[k], now) || !Stale(l.config, l.entries[k], now))
                         :: l.entries[k])
  }

  function Call(l: Limiter, key: Key, kind: Kind, now: int): (Limiter, Answer) {
    match kind
    case Allowed =>
      if key !in l.entries then (l, Verdict(true))
      else if Locked(l.entries[key], now) then (l, Verdict(false))
      else if Stale(l.config, l.entries[key], now) then (l.(entries := l.entries - {key}), Verdict(true))
      else (l, Verdict(true))
    case Acquire =>
      var s := Sweep(l, now);
      var e := Lookup(s.entries, key);
      if e.Some? && !Stale(s.config, e.value, now) && Locked(e.value, now) then (s, Verdict(false))
      else (s.(entries := s.entries[key := Struck(s.config, e, now)]), Verdict(true))
    case LockedFor => (l, Remaining(if key in l.entries then Left(l.entries[key], now) else 0))
    case Fail =>
      var s := Sweep(l, now);
      (s.(entries := s.entries[key := Struck(s.config, Lookup(s.entries, key), now)]), Noted)
    case Reset => (l.(entries := l.entries - {key}), Noted)
  }

  class FailureLimiter {
    const config: Config
    var entries: Ledger
    var lastSweep: Option<int>

    ghost function View(): Limiter
      reads this
    {
      Limiter(config, entries, lastSweep)
    }

    constructor (maxFailures: int, window: int)
      ensures View() == Limiter(Config(maxFailures, window), map[], None)
    {
      config := Config(maxFailures, window);
      entries, lastSweep := map[], None;
    }

    method IsAllowed(key: Key, now: int) returns (ok: bool)
      modifies this`entries
      ensures (View(), Verdict(ok)) == Call(old(View()), key, Allowed, now)
    {
      if key !in entries {
        return true;
      }
      var e := entries[key];
      if e.until.Some? && now < e.until.value {
        return false;
      }
      if now - e.last > config.window {
        entries := entries - {key};
      }
      return true;
    }

    method DropStale(now: int)
      modifies this`entries, this`lastSweep
      ensures View() == Sweep(old(View()), now)
    {
      if lastSweep.Some? && now - lastSweep.value < config.window {
        return;
      }
      lastSweep := Some(now);
      ghost var before := entries;
      assert before == map k | k in before :: before[k];
      var todo := entries.Keys;
      while todo != {}
        invariant todo <= before.Keys && lastSweep == Some(now)
        invariant entries == map k | k in before
                               && (k in todo || Locked(before[k], now) || !Stale(config, before[k], now)) :: before[k]
        decreases todo
      {
        var k :| k in todo;
        todo := todo - {k};
        var e := entries[k];
        if !(e.until.Some? && now < e.until.value) && now - e.last > config.window {
          entries := entries - {k};
        }
      }
      assert entries == Sweep(old(View()), now).entries;
    }

    /** One failure more for key, in a new entry when it has none or a stale one. */
    method Strike(key: Key, now: int)
      modifies this`entries
      ensures entries == old(entries)[key := Struck(config, Lookup(old(entries), key), now)]
    {
      var e := Entry(0, None, 0);
      if key in entries && !(now - entries[key].last > config.window) {
        e := entries[key];
      }
      e := e.(failures := e.failures + 1, last := now);
      if e.failures >= config.maxFailures {
        e := e.(until := Some(now + config.window));
      }
      entries := entries[key := e];
    }

    method TryAcquire(key: Key, now: int) returns (ok: bool)
      modifies this`entries, this`lastSweep
      ensures (View(), Verdict(ok)) == Call(old(View()), key, Acquire, now)
    {
      DropStale(now);
      if key in entries && !(now - entries[key].last > config.window)
         && entries[key].until.Some? && now < entries[key].until.value {
        return false;
      }
      Strike(key, now);
      return true;
    }

    method LockedOutFor(key: Key, now: int) returns (ns: int)
      ensures (View(), Remaining(ns)) == Call(View(), key, LockedFor, now)
    {
      if key !in entries || entries[key].until.None? {
        return 0;
      }
      ns := Max(entries[key].until.value - now, 0);
    }

    method Failed(key: Key, now: int)
      modifies this`entries, this`lastSweep
      ensures (View(), Noted) == Call(old(View()), key, Fail, now)
    {
      DropStale(now);
      Strike(key, now);
    }

    method Clear(key: Key, now: int)
      modifies this`entries
      ensures (View(), Noted) == Call(old(View()), key, Reset, now)
    {
      entries := entries - {key};
    }
  }

  // --------------------------------------------------------------- runs of calls

  datatype Event = Event(key: Key, kind: Kind, now: int)

  ghost predicate InOrder(events: seq<Event>, start: int) {
    && (forall i :: 0 <= i < |events| ==> start <= events[i].now)
    && (forall i, j :: 0 <= i < j < |events| ==> events[i].now <= events[j].now)
  }

  function EndOf(events: seq<Event>, start: int): int {
    if events == [] then start else events[|events| - 1].now
  }

  function LedgerAfter(c: Config, events: seq<Event>): Ledger {
    if events == [] then map[]
    else
      var n, e := |events| - 1, events[|events| - 1];
      Next(c, LedgerAfter(c, events[..n]), e.key, e.kind, e.now)
  }

  function LimiterAfter(c: Config, events: seq<Event>): Limiter {
    if events == [] then Limiter(c, map[], None)
    else
      var n, e := |events| - 1, events[|events| - 1];
      Call(LimiterAfter(c, events[..n]), e.key, e.kind, e.now).0
  }

  /** What the specification, and what the limiter, answers to one more event. */
  function Due(c: Config, events: seq<Event>, e: Event): Answer {
    AnswerOf(LedgerAfter(c, events), e.key, e.kind, e.now)
  }

  function Given(c: Config, events: seq<Event>, e: Event): Answer {
    Call(LimiterAfter(c, events), e.key, e.kind, e.now).1
  }

  lemma {:induction false} LedgerSound(c: Config, events: seq<Event>, start: int)
    requires InOrder(events, start)
    ensures Sound(c, LedgerAfter(c, events), EndOf(events, start))
  {
    if events != [] {
      var n, e := |events| - 1, events[|events| - 1];
      LedgerSound(c, events[..n], start);
      NextSound(c, LedgerAfter(c, events[..n]), e.key, e.kind, EndOf(events[..n], start), e.now);
    }
  }

  // ----------------------------------------------------- dropping is never noticed

  /** The limiter dropped only entries that are stale. */
  ghost predicate Forgets(l: Limiter, m: Ledger, now: int) {
    && Sound(l.config, m, now)
    && (forall k <- l.entries :: k in m && l.entries[k] == m[k])
    && (forall k <- m :: k !in l.entries ==> Stale(l.config, m[k], now))
  }

  lemma SweepForgets(l: Limiter, m: Ledger, then_: int, now: int)
    requires Forgets(l, m, then_) && then_ <= now
    ensures Forgets(Sweep(l, now), m, now)
  {
  }

  lemma StrikeForgets(s: Limiter, m: Ledger, e: Event)
    requires Forgets(s, m, e.now)
    ensures Struck(s.config, Lookup(s.entries, e.key), e.now) == Struck(s.config, Lookup(m, e.key), e.now)
    ensures Free(m, e.key, e.now) <==>
      !(e.key in s.entries && !Stale(s.config, s.entries[e.key], e.now) && Locked(s.entries[e.key], e.now))
  {
  }

  lemma CallForgets(l: Limiter, m: Ledger, e: Event, then_: int)
    requires Forgets(l, m, then_) && then_ <= e.now
    ensures Forgets(Call(l, e.key, e.kind, e.now).0, Next(l.config, m, e.key, e.kind, e.now), e.now)
    ensures Call(l, e.key, e.kind, e.now).1 == AnswerOf(m, e.key, e.kind, e.now)
  {
    NextSound(l.config, m, e.key, e.kind, then_, e.now);
    if e.kind == Acquire || e.kind == Fail {
      SweepForgets(l, m, then_, e.now);
      StrikeForgets(Sweep(l, e.now), m, e);
    }
  }

  lemma {:induction false} RunForgets(c: Config, events: seq<Event>, start: int)
    requires InOrder(events, start)
    ensures LimiterAfter(c, events).config == c
    ensures Forgets(LimiterAfter(c, events), LedgerAfter(c, events), EndOf(events, start))
  {
    if events != [] {
      var n, e := |events| - 1, events[|events| - 1];
      RunForgets(c, events[..n], start);
      CallForgets(LimiterAfter(c, events[..n]), LedgerAfter(c, events[..n]), e, EndOf(events[..n], start));
    }
  }

  /** Main result: whatever was swept or dropped before, every answer is the one a limiter
      that keeps every entry gives. */
  lemma DroppingIsInvisible(c: Config, events: seq<Event>, e: Event, start: int)
    requires InOrder(events + [e], start)
    ensures Given(c, events, e) == Due(c, events, e)
  {
    assert forall i :: 0 <= i < |events| ==> (events + [e])[i] == events[i];
    assert (events + [e])[|events|] == e;
    RunForgets(c, events, start);
    CallForgets(LimiterAfter(c, events), LedgerAfter(c, events), e, EndOf(events, start));
  }

  // ------------------------------------------------ how many attempts a window admits

  /** Events of key from s on: the Acquires the limiter admitted, and the Fails. */
  function Acquired(c: Config, events: seq<Event>, key: Key, s: int): nat {
    if events == [] then 0
    else
      var n, e := |events| - 1, events[|events| - 1];
      Acquired(c, events[..n], key, s) +
        if e.key == key && e.now >= s && e.kind == Acquire && Given(c, events[..n], e) == Verdict(true) then 1 else 0
  }

  function Fails(events: seq<Event>, key: Key, s: int): nat {
    if events == [] then 0
    else
      var n, e := |events| - 1, events[|events| - 1];
      Fails(events[..n], key, s) + if e.key == key && e.now >= s && e.kind == Fail then 1 else 0
  }

  /** key is never reset at s or later. */
  ghost predicate NoReset(events: seq<Event>, key: Key, s: int) {
    forall i :: 0 <= i < |events| && events[i].key == key && events[i].now >= s ==> events[i].kind != Reset
  }

  /** Every strike since s is on key's entry, which holds at least that many. */
  ghost predicate Counted(c: Config, events: seq<Event>, key: Key, s: int) {
    Holds(LedgerAfter(c, events), key, s, Acquired(c, events, key, s) + Fails(events, key, s))
  }

  function Cap(c: Config): int { Max(c.maxFailures, 1) }

  /** key's entry holds at least strikes failures, the last of them at s or later. */
  ghost predicate Holds(m: Ledger, key: Key, s: int, strikes: nat) {
    strikes > 0 ==> key in m && m[key].last >= s && m[key].failures >= strikes
  }

  /** Whether an event on m adds a failure. */
  predicate Strikes(m: Ledger, e: Event) {
    e.kind == Fail || (e.kind == Acquire && Free(m, e.key, e.now))
  }

  /** Within a window of s a strike adds to the entry, and an Acquire is admitted only below the cap. */
  lemma StrikeCounts(c: Config, m: Ledger, e: Event, s: int, strikes: nat, then_: int)
    requires Sound(c, m, then_) && then_ <= e.now && s <= e.now < s + c.window && e.kind != Reset
    requires Holds(m, e.key, s, strikes)
    ensures Holds(Next(c, m, e.key, e.kind, e.now), e.key, s, strikes + if Strikes(m, e) then 1 else 0)
    ensures e.kind == Acquire && Strikes(m, e) ==> strikes < Cap(c)
  {
  }

  lemma {:induction false} CountedStep(c: Config, rest: seq<Event>, e: Event, key: Key, s: int, start: int)
    requires InOrder(rest + [e], start) && InOrder(rest, start) && EndOf(rest, start) <= e.now
    requires e.now < s + c.window && !(e.key == key && e.now >= s && e.kind == Reset)
    requires e.now >= s && Counted(c, rest, key, s) && Acquired(c, rest, key, s) <= Cap(c)
    ensures Counted(c, rest + [e], key, s) && Acquired(c, rest + [e], key, s) <= Cap(c)
  {
    assert (rest + [e])[..|rest|] == rest;
    var m := LedgerAfter(c, rest);
    if e.key == key {
      DroppingIsInvisible(c, rest, e, start);
      LedgerSound(c, rest, start);
      StrikeCounts(c, m, e, s, Acquired(c, rest, key, s) + Fails(rest, key, s), EndOf(rest, start));
    }
  }

  lemma {:induction false} NothingBefore(c: Config, events: seq<Event>, key: Key, s: int, start: int)
    requires InOrder(events, start) && EndOf(events, start) < s
    ensures Acquired(c, events, key, s) == 0 && Fails(events, key, s) == 0
  {
    if events != [] {
      NothingBefore(c, events[..|events| - 1], key, s, start);
    }
  }

  lemma {:induction false} WindowCounted(c: Config, events: seq<Event>, key: Key, s: int, start: int)
    requires InOrder(events, start) && EndOf(events, start) < s + c.window && NoReset(events, key, s)
    ensures Counted(c, events, key, s) && Acquired(c, events, key, s) <= Cap(c)
  {
    if EndOf(events, start) < s {
      NothingBefore(c, events, key, s, start);
    } else if events != [] {
      var n, e := |events| - 1, events[|events| - 1];
      WindowCounted(c, events[..n], key, s, start);
      assert events[..n] + [e] == events;
      CountedStep(c, events[..n], e, key, s, start);
    }
  }

  /** Main result: in any half-open interval of one window, with no Reset of key in it, Acquire
      admits key at most maxFailures times (once, when that is not positive). */
  lemma {:induction false} AcquiresAreBounded(c: Config, events: seq<Event>, key: Key, s: int, start: int)
    requires InOrder(events, start) && EndOf(events, start) < s + c.window && NoReset(events, key, s)
    ensures Acquired(c, events, key, s) <= Cap(c)
  {
    WindowCounted(c, events, key, s, start);
  }

  /**
   * flight[i] attempts on key are under way before events[i]: an admitted Allowed starts one
   * at most, a Fail ends one, and at most k are ever under way.
   */
  ghost predicate Flights(c: Config, events: seq<Event>, key: Key, flight: seq<nat>, k: nat) {
    && |flight| == |events| + 1
    && (forall i :: 0 <= i <= |events| ==> flight[i] <= k)
    && forall i :: 0 <= i < |events| ==>
         var e := events[i];
         && (e.key == key && e.kind == Fail ==> flight[i + 1] < flight[i])
         && (flight[i + 1] > flight[i] ==>
               && e.key == key && e.kind == Allowed && flight[i + 1] == flight[i] + 1
               && Given(c, events[..i], e) == Verdict(true))
  }

  /** Fails so far fit the cap, or key is locked to the window's end and the Fails still to come
      are those under way. */
  ghost predicate FailsFit(c: Config, events: seq<Event>, key: Key, s: int, flight: nat, k: nat) {
    var m, fails := LedgerAfter(c, events), Fails(events, key, s);
    if key in m && m[key].last >= s && m[key].failures >= c.maxFailures
    then fails + flight <= Cap(c) + k - 1
    else fails <= Cap(c) - 1
  }

  lemma FailsFitStep(c: Config, rest: seq<Event>, e: Event, key: Key, s: int, start: int, before: nat, after: nat,
                     k: nat)
    requires InOrder(rest + [e], start) && InOrder(rest, start) && EndOf(rest, start) <= e.now
    requires s <= e.now < s + c.window && !(e.key == key && e.kind == Reset)
    requires before <= k && after <= k && Counted(c, rest, key, s)
    requires e.key == key && e.kind == Fail ==> after < before
    requires after > before ==>
      e.key == key && e.kind == Allowed && after == before + 1 && Given(c, rest, e) == Verdict(true)
    requires FailsFit(c, rest, key, s, before, k)
    ensures FailsFit(c, rest + [e], key, s, after, k)
  {
    assert (rest + [e])[..|rest|] == rest;
    DroppingIsInvisible(c, rest, e, start);
    LedgerSound(c, rest, start);
  }

  lemma FlightsBefore(c: Config, events: seq<Event>, key: Key, flight: seq<nat>, k: nat)
    requires Flights(c, events, key, flight, k) && events != []
    ensures Flights(c, events[..|events| - 1], key, flight[..|events|], k)
  {
    var rest := events[..|events| - 1];
    assert forall i :: 0 <= i < |rest| ==> rest[..i] == events[..i];
  }

  lemma {:induction false} WindowFailsFit(c: Config, events: seq<Event>, key: Key, s: int, start: int,
                                          flight: seq<nat>, k: nat)
    requires InOrder(events, start) && EndOf(events, start) < s + c.window && NoReset(events, key, s)
    requires Flights(c, events, key, flight, k)
    ensures FailsFit(c, events, key, s, flight[|events|], k)
  {
    if EndOf(events, start) < s {
      NothingBefore(c, events, key, s, start);
      LedgerSound(c, events, start);
    } else if events != [] {
      var n, e := |events| - 1, events[|events| - 1];
      var rest := events[..n];
      FlightsBefore(c, events, key, flight, k);
      WindowFailsFit(c, rest, key, s, start, flight[..n + 1], k);
      WindowCounted(c, rest, key, s, start);
      assert rest + [e] == events;
      FailsFitStep(c, rest, e, key, s, start, flight[n], flight[n + 1], k);
    }
  }

  /**
   * Main result: Allowed is checked before an attempt and Fail recorded after it, so attempts
   * race past the lock; but with at most k under way at once, at most maxFailures + k - 1 Fails
   * happen in any half-open interval of one window without a Reset.
   */
  lemma {:induction false} FailsAreBounded(c: Config, events: seq<Event>, key: Key, s: int, start: int,
                                           flight: seq<nat>, k: nat)
    requires InOrder(events, start) && EndOf(events, start) < s + c.window && NoReset(events, key, s)
    requires Flights(c, events, key, flight, k)
    ensures Fails(events, key, s) <= Cap(c) + k - 1
  {
    WindowFailsFit(c, events, key, s, start, flight, k);
  }

  /** A lock holds for exactly a window from the last failure, whatever else happens but a Reset
      or a further failure: refused before its end, admitted from it on. */
  lemma {:induction false} LockLastsAWindow(c: Config, events: seq<Event>, key: Key, start: int, now: int)
    requires InOrder(events + [Event(key, Allowed, now)], start)
    requires key in LedgerAfter(c, events) && LedgerAfter(c, events)[key].failures >= c.maxFailures
    ensures var e := LedgerAfter(c, events)[key];
      && Given(c, events, Event(key, Allowed, now)) == Verdict(now >= e.last + c.window)
      && Given(c, events, Event(key, LockedFor, now)) == Remaining(Max(e.last + c.window - now, 0))
  {
    var e := Event(key, Allowed, now);
    var e' := Event(key, LockedFor, now);
    assert forall i :: 0 <= i < |events| ==> (events + [e])[i] == events[i] == (events + [e'])[i];
    assert (events + [e])[|events|] == e && (events + [e'])[|events|] == e';
    LedgerSound(c, events, start);
    DroppingIsInvisible(c, events, e, start);
    DroppingIsInvisible(c, events, e', start);
  }

  // -------------------------------------------------------- exactly when a key is locked

  /** A key's failures in a row: how many, and when the last was. */
  datatype Streak = Streak(count: nat, last: int)

  /** Whether the limiter counted e, after events, against its key. */
  predicate Failure(c: Config, events: seq<Event>, e: Event) {
    e.kind == Fail || (e.kind == Acquire && Given(c, events, e) == Verdict(true))
  }

  /** A key's streak after e, one of its own, which failed or not. */
  function Grown(c: Config, before: Streak, e: Event, failed: bool): Streak {
    if e.kind == Reset then Streak(0, 0)
    else if !failed then before
    else if before.count > 0 && e.now - before.last <= c.window then Streak(before.count + 1, e.now)
    else Streak(1, e.now)
  }

  /** key's admitted Acquires and Fails since its last Reset, or since a gap longer than the window. */
  function StreakOf(c: Config, events: seq<Event>, key: Key): Streak {
    if events == [] then Streak(0, 0)
    else
      var rest, e := events[..|events| - 1], events[|events| - 1];
      if e.key != key then StreakOf(c, rest, key) else Grown(c, StreakOf(c, rest, key), e, Failure(c, rest, e))
  }

  /** What the ledger holds for key says streak. */
  ghost predicate Says(m: Ledger, key: Key, streak: Streak) {
    if streak.count == 0 then key !in m
    else key in m && m[key].failures == streak.count && m[key].last == streak.last
  }

  lemma NextSays(c: Config, m: Ledger, e: Event, key: Key, streak: Streak)
    requires Says(m, key, streak)
    ensures var after := if e.key == key then Grown(c, streak, e, Strikes(m, e)) else streak;
      Says(Next(c, m, e.key, e.kind, e.now), key, after)
  {
  }

  lemma {:induction false} StreakOneMore(c: Config, events: seq<Event>, e: Event, key: Key, start: int)
    requires InOrder(events + [e], start)
    requires Says(LedgerAfter(c, events), key, StreakOf(c, events, key))
    ensures Says(LedgerAfter(c, events + [e]), key, StreakOf(c, events + [e], key))
  {
    assert (events + [e])[..|events|] == events;
    NextSays(c, LedgerAfter(c, events), e, key, StreakOf(c, events, key));
    DroppingIsInvisible(c, events, e, start);
  }

  lemma {:induction false} StreakIsHeld(c: Config, events: seq<Event>, key: Key, start: int)
    requires InOrder(events, start)
    ensures Says(LedgerAfter(c, events), key, StreakOf(c, events, key))
  {
    if events != [] {
      var rest, e := events[..|events| - 1], events[|events| - 1];
      StreakIsHeld(c, rest, key, start);
      assert rest + [e] == events;
      StreakOneMore(c, rest, e, key, start);
    }
  }

  /** Whether key has failed often enough in a row, the last time less than a window ago. */
  predicate LockedOut(c: Config, streak: Streak, now: int) {
    streak.count >= Cap(c) && now < streak.last + c.window
  }

  lemma {:induction false} DueExactly(c: Config, events: seq<Event>, key: Key, start: int, now: int)
    requires InOrder(events, start)
    ensures var streak := StreakOf(c, events, key);
      && Due(c, events, Event(key, Allowed, now)) == Verdict(!LockedOut(c, streak, now))
      && Due(c, events, Event(key, Acquire, now)) == Verdict(!LockedOut(c, streak, now))
      && Due(c, events, Event(key, LockedFor, now)) ==
        Remaining(if streak.count >= Cap(c) then Max(streak.last + c.window - now, 0) else 0)
  {
    LedgerSound(c, events, start);
    StreakIsHeld(c, events, key, start);
  }

  lemma OneMoreInOrder(events: seq<Event>, e: Event, start: int)
    requires InOrder(events, start) && EndOf(events, start) <= e.now && start <= e.now
    ensures InOrder(events + [e], start)
  {
  }

  /**
   * Main result: after any run a key is locked exactly when its failures in a row (counted from its
   * last Reset, or from a gap longer than the window) are maxFailures or more and the last is less
   * than a window ago: not before, and not after. LockedFor answers what is left of that.
   */
  lemma {:induction false} LockedExactly(c: Config, events: seq<Event>, key: Key, start: int, now: int)
    requires InOrder(events, start) && EndOf(events, start) <= now && start <= now
    ensures var streak := StreakOf(c, events, key);
      && Given(c, events, Event(key, Allowed, now)) == Verdict(!LockedOut(c, streak, now))
      && Given(c, events, Event(key, Acquire, now)) == Verdict(!LockedOut(c, streak, now))
      && Given(c, events, Event(key, LockedFor, now)) ==
        Remaining(if streak.count >= Cap(c) then Max(streak.last + c.window - now, 0) else 0)
  {
    DueExactly(c, events, key, start, now);
    OneMoreInOrder(events, Event(key, Allowed, now), start);
    OneMoreInOrder(events, Event(key, Acquire, now), start);
    OneMoreInOrder(events, Event(key, LockedFor, now), start);
    DroppingIsInvisible(c, events, Event(key, Allowed, now), start);
    DroppingIsInvisible(c, events, Event(key, Acquire, now), start);
    DroppingIsInvisible(c, events, Event(key, LockedFor, now), start);
  }

  /** After a Reset a key is free again and counts from nothing. */
  lemma {:induction false} ResetStartsAgain(c: Config, events: seq<Event>, key: Key, start: int, then_: int, now: int)
    requires InOrder(events, start) && EndOf(events, start) <= then_ <= now && start <= then_
    ensures StreakOf(c, events + [Event(key, Reset, then_)], key).count == 0
    ensures Given(c, events + [Event(key, Reset, then_)], Event(key, Allowed, now)) == Verdict(true)
  {
    var all := events + [Event(key, Reset, then_)];
    assert all[..|events|] == events;
    OneMoreInOrder(events, Event(key, Reset, then_), start);
    LockedExactly(c, all, key, start, now);
  }

  // ------------------------------------------------------------------- what sweeping keeps

  /** No entry has been idle for two windows, nor the last sweep one. */
  ghost predicate Recent(l: Limiter, now: int) {
    && l.lastSweep.Some? && l.lastSweep.value <= now < l.lastSweep.value + Max(l.config.window, 1)
    && forall k <- l.entries :: l.entries[k].last >= l.lastSweep.value - l.config.window
  }

  /** What a run keeps between sweeps. */
  ghost predicate SweptTo(l: Limiter, now: int) {
    && Sound(l.config, l.entries, now)
    && (l.lastSweep.None? ==> l.entries == map[])
    && (l.lastSweep.Some? ==>
          && l.lastSweep.value <= now
          && forall k <- l.entries :: l.entries[k].last >= l.lastSweep.value - l.config.window)
  }

  lemma SweepSwept(l: Limiter, then_: int, now: int)
    requires SweptTo(l, then_) && then_ <= now && l.config.window > 0
    ensures var s := Sweep(l, now); s.config == l.config && SweptTo(s, now) && Recent(s, now)
  {
  }

  /** A strike on a swept limiter. */
  lemma StrikeSwept(s: Limiter, key: Key, now: int)
    requires SweptTo(s, now) && Recent(s, now) && s.config.window > 0
    ensures var l := s.(entries := s.entries[key := Struck(s.config, Lookup(s.entries, key), now)]);
      SweptTo(l, now) && Recent(l, now)
  {
  }

  lemma CallSwept(l: Limiter, e: Event, then_: int)
    requires SweptTo(l, then_) && then_ <= e.now && l.config.window > 0
    ensures SweptTo(Call(l, e.key, e.kind, e.now).0, e.now)
    ensures e.kind == Acquire || e.kind == Fail ==> Recent(Call(l, e.key, e.kind, e.now).0, e.now)
  {
    SweepSwept(l, then_, e.now);
    StrikeSwept(Sweep(l, e.now), e.key, e.now);
  }

  lemma {:induction false} RunSwept(c: Config, events: seq<Event>, start: int)
    requires InOrder(events, start) && c.window > 0
    ensures LimiterAfter(c, events).config == c && SweptTo(LimiterAfter(c, events), EndOf(events, start))
  {
    if events != [] {
      var rest, e := events[..|events| - 1], events[|events| - 1];
      RunSwept(c, rest, start);
      CallSwept(LimiterAfter(c, rest), e, EndOf(rest, start));
    }
  }

  /** However many keys there were, after a counted attempt none is held that was idle for two windows. */
  lemma {:induction false} EntriesAreRecent(c: Config, events: seq<Event>, e: Event, key: Key, start: int)
    requires InOrder(events + [e], start) && c.window > 0 && (e.kind == Acquire || e.kind == Fail)
    requires key in LimiterAfter(c, events + [e]).entries
    ensures e.now - LimiterAfter(c, events + [e]).entries[key].last < 2 * c.window
  {
    assert forall i :: 0 <= i < |events| ==> (events + [e])[i] == events[i];
    assert (events + [e])[|events|] == e && (events + [e])[..|events|] == events;
    RunSwept(c, events, start);
    CallSwept(LimiterAfter(c, events), e, EndOf(events, start));
  }
}
