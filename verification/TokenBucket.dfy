/**
 * The token-bucket rate limiter of internal/api/ratelimit.go:165-285. Time is in
 * nanoseconds (every call reads the clock under the lock, so times never go back) and
 * tokens are reals. `Limiter` is the limiter as a value, idle sweeping included; the class
 * `RateLimiter` is the server's object; `Ledger` is the specification, one bucket per key
 * that nothing ever drops.
 */
module TokenBucket {
  import opened Basics

  const SECOND: int := 1_000_000_000
  const MINUTE: int := 60 * SECOND
  const DAY: int := 86_400 * SECOND  // maxIdleTTL

  type Key = string

  datatype Limits = Limits(rate: real, burst: real) {
    /** What the configuration guarantees: a positive rate and room for one request. */
    predicate Valid() { rate > 0.0 && burst >= 1.0 }
  }

  datatype Bucket = Bucket(tokens: real, last: int)

  /** The tokens that accrue in dt nanoseconds. */
  function Gain(p: Limits, dt: int): real {
    dt as real / 1_000_000_000.0 * p.rate
  }

  lemma GainAdds(p: Limits, a: int, b: int)
    ensures Gain(p, a + b) == Gain(p, a) + Gain(p, b)
    ensures Gain(p, 0) == 0.0
  {
    var x, y := a as real / 1_000_000_000.0, b as real / 1_000_000_000.0;
    assert (a + b) as real / 1_000_000_000.0 == x + y;
    assert (x + y) * p.rate == x * p.rate + y * p.rate;
  }

  lemma GainGrows(p: Limits, a: int, b: int)
    requires p.Valid() && a <= b
    ensures Gain(p, a) <= Gain(p, b)
    ensures a < b ==> Gain(p, a) < Gain(p, b)
  {
    var x, y := a as real / 1_000_000_000.0, b as real / 1_000_000_000.0;
    assert (y - x) * p.rate == y * p.rate - x * p.rate;
    assert (y - x) * p.rate >= 0.0;
  }

  /** b topped up for the time since its last use. */
  function Refilled(p: Limits, b: Bucket, now: int): Bucket {
    Bucket(MinReal(b.tokens + Gain(p, now - b.last), p.burst), now)
  }

  datatype Kind = Allow | Ready | Wait | Charge
  datatype Answer = Verdict(ok: bool) | Delay(ns: int) | Paid

  /** A refilled bucket's wait for its next token: worked out in seconds, capped at a day, truncated. */
  function WaitOf(p: Limits, b: Bucket): (ns: int)
    ensures ns >= 0
  {
    if b.tokens >= 1.0 || p.rate <= 0.0 then 0
    else (MinReal((1.0 - b.tokens) / p.rate, 86_400.0) * 1_000_000_000.0).Floor
  }

  /** What a call answers from key's refilled bucket, and what it leaves in it. */
  function AnswerOf(p: Limits, b: Bucket, kind: Kind): Answer {
    match kind
    case Allow => Verdict(b.tokens >= 1.0)
    case Ready => Verdict(b.tokens >= 1.0)
    case Wait => Delay(WaitOf(p, b))
    case Charge => Paid
  }

  function Spent(p: Limits, b: Bucket, kind: Kind): Bucket {
    match kind
    case Allow => if b.tokens < 1.0 then b else b.(tokens := b.tokens - 1.0)
    case Charge => b.(tokens := MaxReal(b.tokens - 1.0, -p.burst))
    case _ => b
  }

  // ------------------------------------------- the specification: nothing is dropped

  type Ledger = map<Key, Bucket>

  /** key's bucket at now: a full one when it has none. */
  function BucketAt(p: Limits, m: Ledger, key: Key, now: int): Bucket {
    if key in m then Refilled(p, m[key], now) else Bucket(p.burst, now)
  }

  function Next(p: Limits, m: Ledger, key: Key, kind: Kind, now: int): Ledger {
    m[key := Spent(p, BucketAt(p, m, key, now), kind)]
  }

  /** What a ledger keeps: tokens stay within [-burst, burst], and no bucket is from the future. */
  ghost predicate Sound(p: Limits, m: Ledger, now: int) {
    forall k <- m :: -p.burst <= m[k].tokens <= p.burst && m[k].last <= now
  }

  lemma RefillBounds(p: Limits, b: Bucket, now: int)
    requires p.Valid() && -p.burst <= b.tokens <= p.burst && b.last <= now
    ensures b.tokens <= Refilled(p, b, now).tokens <= p.burst
  {
    GainGrows(p, 0, now - b.last);
    GainAdds(p, 0, 0);
  }

  /** Every call keeps every bucket's tokens within [-burst, burst]. */
  lemma NextSound(p: Limits, m: Ledger, key: Key, kind: Kind, then_: int, now: int)
    requires p.Valid() && Sound(p, m, then_) && then_ <= now
    ensures Sound(p, Next(p, m, key, kind, now), now)
  {
    if key in m {
      RefillBounds(p, m[key], now);
    }
  }

  // ------------------------------------------------------- the limiter, with sweeping

  datatype Limiter = Limiter(limits: Limits, idleTTL: int, buckets: Ledger, lastSweep: Option<int>) {
    function Do(key: Key, kind: Kind, now: int): Limiter { Call(this, key, kind, now).0 }
    function Says(key: Key, kind: Kind, now: int): Answer { Call(this, key, kind, now).1 }

    /** The bucket a call on key finds now. */
    function Sees(key: Key, now: int): Bucket { BucketAt(limits, Sweep(this, now).buckets, key, now) }
  }

  function IdleTTL(p: Limits): int {
    if p.rate > 0.0 then
      Max(MINUTE, (MinReal(p.burst / p.rate * 2.0, 86_400.0) * 1_000_000_000.0).Floor)
    else MINUTE
  }

  function NewLimiter(p: Limits): Limiter {
    Limiter(p, IdleTTL(p), map[], None)
  }

  /** Buckets idle for longer than idleTTL, dropped at most once per idleTTL. */
  function Sweep(l: Limiter, now: int): Limiter {
    if l.lastSweep.Some? && now - l.lastSweep.value < l.idleTTL then l
    else
      var kept := map k | k in l.buckets && now - l.buckets[k].last <= l.idleTTL :: l.buckets[k];
      l.(lastSweep := Some(now), buckets := kept)
  }

  function Call(l: Limiter, key: Key, kind: Kind, now: int): (Limiter, Answer) {
    var s := Sweep(l, now);
    var b := BucketAt(l.limits, s.buckets, key, now);
    (s.(buckets := s.buckets[key := Spent(l.limits, b, kind)]), AnswerOf(l.limits, b, kind))
  }

  class RateLimiter {
    const limits: Limits
    const idleTTL: int
    var buckets: Ledger
    var lastSweep: Option<int>

    ghost function View(): Limiter
      reads this
    {
      Limiter(limits, idleTTL, buckets, lastSweep)
    }

    constructor (ratePerSec: real, burst: real)
      ensures View() == NewLimiter(Limits(ratePerSec, burst))
    {
      var idle := MINUTE;
      if ratePerSec > 0.0 {
        var secs := MinReal(burst / ratePerSec * 2.0, 86_400.0);
        idle := Max(idle, (secs * 1_000_000_000.0).Floor);
      }
      limits := Limits(ratePerSec, burst);
      idleTTL := idle;
      buckets, lastSweep := map[], None;
    }

    method DropIdle(now: int)
      modifies this`buckets, this`lastSweep
      ensures View() == Sweep(old(View()), now)
    {
      if lastSweep.Some? && now - lastSweep.value < idleTTL {
        return;
      }
      lastSweep := Some(now);
      ghost var before := buckets;
      assert before == map k | k in before :: before[k];
      var todo := buckets.Keys;
      while todo != {}
        invariant todo <= before.Keys && lastSweep == Some(now)
        invariant buckets == map k | k in before && (k in todo || now - before[k].last <= idleTTL) :: before[k]
        decreases todo
      {
        var k :| k in todo;
        todo := todo - {k};
        if now - buckets[k].last > idleTTL {
          buckets := buckets - {k};
        }
      }
      assert buckets == Sweep(old(View()), now).buckets;
    }

    /** Sweeps, then brings key's bucket up to now, starting it off full. */
    method Refill(key: Key, now: int) returns (b: Bucket)
      modifies this`buckets, this`lastSweep
      ensures b == BucketAt(limits, Sweep(old(View()), now).buckets, key, now)
      ensures View() == Sweep(old(View()), now).(buckets := Sweep(old(View()), now).buckets[key := b])
    {
      DropIdle(now);
      if key !in buckets {
        buckets := buckets[key := Bucket(limits.burst, now)];
      }
      GainAdds(limits, 0, 0);
      b := buckets[key];
      b := Bucket(MinReal(b.tokens + Gain(limits, now - b.last), limits.burst), now);
      buckets := buckets[key := b];
    }

    method TryAllow(key: Key, now: int) returns (ok: bool)
      modifies this`buckets, this`lastSweep
      ensures (View(), Verdict(ok)) == Call(old(View()), key, Allow, now)
    {
      var b := Refill(key, now);
      if b.tokens < 1.0 {
        return false;
      }
      Overwrite(Sweep(old(View()), now).buckets, key, b, b.(tokens := b.tokens - 1.0));
      return true;
    }

    method IsReady(key: Key, now: int) returns (ok: bool)
      modifies this`buckets, this`lastSweep
      ensures (View(), Verdict(ok)) == Call(old(View()), key, Ready, now)
    {
      var b := Refill(key, now);
      ok := b.tokens >= 1.0;
    }

    method WaitFor(key: Key, now: int) returns (ns: int)
      modifies this`buckets, this`lastSweep
      ensures (View(), Delay(ns)) == Call(old(View()), key, Wait, now)
    {
      var b := Refill(key, now);
      if b.tokens >= 1.0 || limits.rate <= 0.0 {
        return 0;
      }
      var secs := MinReal((1.0 - b.tokens) / limits.rate, 86_400.0);
      ns := (secs * 1_000_000_000.0).Floor;
    }

    method Pay(key: Key, now: int)
      modifies this`buckets, this`lastSweep
      ensures (View(), Paid) == Call(old(View()), key, Charge, now)
    {
      var b := Refill(key, now);
      Overwrite(Sweep(old(View()), now).buckets, key, b, b.(tokens := MaxReal(b.tokens - 1.0, -limits.burst)));
    }

    /** The bucket just refilled into m, b, spent down to b'. */
    method Overwrite(ghost m: Ledger, key: Key, ghost b: Bucket, b': Bucket)
      requires buckets == m[key := b]
      modifies this`buckets
      ensures buckets == m[key := b']
    {
      buckets := buckets[key := b'];
    }
  }

  // ------------------------------------------------------------ runs of calls

  datatype Event = Event(key: Key, kind: Kind, now: int)

  ghost predicate InOrder(events: seq<Event>, start: int) {
    && (forall i :: 0 <= i < |events| ==> start <= events[i].now)
    && (forall i, j :: 0 <= i < j < |events| ==> events[i].now <= events[j].now)
  }

  function EndOf(events: seq<Event>, start: int): int {
    if events == [] then start else events[|events| - 1].now
  }

  function LedgerAfter(p: Limits, events: seq<Event>): Ledger {
    if events == [] then map[]
    else
      var n, e := |events| - 1, events[|events| - 1];
      Next(p, LedgerAfter(p, events[..n]), e.key, e.kind, e.now)
  }

  /** What the ledger answers to one more event. */
  function Due(p: Limits, events: seq<Event>, e: Event): Answer {
    AnswerOf(p, BucketAt(p, LedgerAfter(p, events), e.key, e.now), e.kind)
  }

  function LimiterAfter(p: Limits, events: seq<Event>): Limiter {
    if events == [] then NewLimiter(p)
    else
      var n, e := |events| - 1, events[|events| - 1];
      Call(LimiterAfter(p, events[..n]), e.key, e.kind, e.now).0
  }

  /** What the limiter answers to one more event. */
  function Given(p: Limits, events: seq<Event>, e: Event): Answer {
    Call(LimiterAfter(p, events), e.key, e.kind, e.now).1
  }

  /** One event more. */
  lemma {:induction false} Append(p: Limits, events: seq<Event>, e: Event)
    ensures LedgerAfter(p, events + [e]) == Next(p, LedgerAfter(p, events), e.key, e.kind, e.now)
    ensures LimiterAfter(p, events + [e]) == LimiterAfter(p, events).Do(e.key, e.kind, e.now)
  {
    assert (events + [e])[..|events|] == events;
  }

  /** One more event keeps what holds. */
  ghost predicate Extends(holds: seq<Event> -> bool, events: seq<Event>, e: Event) {
    holds(events) ==> holds(events + [e])
  }

  lemma {:induction false} ByEvents(holds: seq<Event> -> bool, events: seq<Event>)
    requires holds([]) && forall before, e :: Extends(holds, before, e)
    ensures holds(events)
  {
    if events != [] {
      var before, e := events[..|events| - 1], events[|events| - 1];
      ByEvents(holds, before);
      assert Extends(holds, before, e) && events == before + [e];
    }
  }

  // ------------------------------------------------ sweeping is invisible, and when

  /** Longer idle than this refills any debt to full. */
  predicate Covers(p: Limits, idle: int) {
    Gain(p, idle + 1) >= 2.0 * p.burst
  }

  /** What the worked-out idle TTL (and the nanosecond the comparison with it adds) refills, up to
      twice the burst, is what a day does. */
  lemma IdleTTLRefills(p: Limits, need: real)
    requires p.Valid() && need <= 2.0 * p.burst
    ensures need <= Gain(p, IdleTTL(p) + 1) <==> need <= Gain(p, DAY + 1)
  {
    var secs := p.burst / p.rate * 2.0;
    assert secs * p.rate == 2.0 * p.burst;
    var idle := IdleTTL(p);
    if secs <= 86_400.0 {
      assert (idle + 1) as real >= secs * 1_000_000_000.0;
      assert (idle + 1) as real / 1_000_000_000.0 >= secs;
      ScaleUp(secs, (idle + 1) as real / 1_000_000_000.0, p.rate);
      assert (DAY + 1) as real / 1_000_000_000.0 >= secs;
      ScaleUp(secs, (DAY + 1) as real / 1_000_000_000.0, p.rate);
    } else {
      assert idle == DAY;
    }
  }

  /** So it covers a full debt exactly while two refills take at most a day. */
  lemma IdleTTLCovers(p: Limits)
    requires p.Valid()
    ensures Covers(p, IdleTTL(p)) <==> 2.0 * p.burst <= Gain(p, DAY + 1)
  {
    IdleTTLRefills(p, 2.0 * p.burst);
  }

  /** By n a full debt is refilled exactly when the seconds that takes are over. */
  lemma RefillsBy(p: Limits, n: int)
    requires p.Valid()
    ensures Gain(p, n) <= 2.0 * p.burst <==> n as real / 1_000_000_000.0 <= p.burst / p.rate * 2.0
  {
    var secs, t := p.burst / p.rate * 2.0, n as real / 1_000_000_000.0;
    assert secs * p.rate == 2.0 * p.burst;
    if t <= secs {
      ScaleUp(t, secs, p.rate);
    } else {
      assert (t - secs) * p.rate > 0.0;
      assert (t - secs) * p.rate == t * p.rate - secs * p.rate;
    }
  }

  /** The idle TTL is the last nanosecond by which no more than a full debt, twice the burst, is
      refilled; but a minute at least, and a day at most. */
  lemma IdleTTLExactly(p: Limits)
    requires p.Valid()
    ensures var idle := IdleTTL(p);
      && 60_000_000_000 <= idle <= 86_400_000_000_000
      && (idle == 60_000_000_000 || Gain(p, idle) <= 2.0 * p.burst)
      && (idle == 86_400_000_000_000 || Gain(p, idle + 1) > 2.0 * p.burst)
  {
    RefillsBy(p, IdleTTL(p));
    RefillsBy(p, IdleTTL(p) + 1);
  }

  lemma ScaleUp(a: real, b: real, rate: real)
    requires a <= b && rate > 0.0
    ensures a * rate <= b * rate
  {
  }

  /** The limiter forgot only buckets that are full again. */
  ghost predicate Forgets(l: Limiter, m: Ledger, now: int) {
    && Sound(l.limits, m, now)
    && (forall k <- l.buckets :: k in m && l.buckets[k] == m[k])
    && (forall k <- m :: k !in l.buckets ==> Refilled(l.limits, m[k], now).tokens == l.limits.burst)
  }

  lemma FullStaysFull(p: Limits, b: Bucket, then_: int, now: int)
    requires p.Valid() && then_ <= now && Refilled(p, b, then_).tokens == p.burst
    ensures Refilled(p, b, now).tokens == p.burst
  {
    GainGrows(p, then_ - b.last, now - b.last);
  }

  lemma SweepForgets(l: Limiter, m: Ledger, then_: int, now: int)
    requires l.limits.Valid() && Covers(l.limits, l.idleTTL)
    requires Forgets(l, m, then_) && then_ <= now
    ensures Forgets(Sweep(l, now), m, now)
  {
    var p, s := l.limits, Sweep(l, now);
    forall k <- m | k !in s.buckets ensures Refilled(p, m[k], now).tokens == p.burst {
      if k in l.buckets {
        GainGrows(p, l.idleTTL + 1, now - m[k].last);
      } else {
        FullStaysFull(p, m[k], then_, now);
      }
    }
  }

  lemma CallForgets(l: Limiter, m: Ledger, e: Event, then_: int)
    requires l.limits.Valid() && Covers(l.limits, l.idleTTL)
    requires Forgets(l, m, then_) && then_ <= e.now
    ensures Forgets(Call(l, e.key, e.kind, e.now).0, Next(l.limits, m, e.key, e.kind, e.now), e.now)
    ensures Call(l, e.key, e.kind, e.now).1 == AnswerOf(l.limits, BucketAt(l.limits, m, e.key, e.now), e.kind)
  {
    SweepForgets(l, m, then_, e.now);
    NextSound(l.limits, m, e.key, e.kind, then_, e.now);
  }

  lemma {:induction false} RunForgets(p: Limits, events: seq<Event>, start: int)
    requires p.Valid() && Covers(p, IdleTTL(p)) && InOrder(events, start)
    ensures LimiterAfter(p, events).limits == p && LimiterAfter(p, events).idleTTL == IdleTTL(p)
    ensures Forgets(LimiterAfter(p, events), LedgerAfter(p, events), EndOf(events, start))
  {
    if events != [] {
      var n, e := |events| - 1, events[|events| - 1];
      RunForgets(p, events[..n], start);
      CallForgets(LimiterAfter(p, events[..n]), LedgerAfter(p, events[..n]), e, EndOf(events[..n], start));
    }
  }

  /** Main result: after any calls, the sweeping limiter answers the next call exactly as one
      that never drops a bucket does, debt included. */
  lemma SweepIsInvisible(p: Limits, events: seq<Event>, e: Event, start: int)
    requires p.Valid() && Covers(p, IdleTTL(p)) && InOrder(events + [e], start)
    ensures Given(p, events, e) == Due(p, events, e)
  {
    assert forall i :: 0 <= i < |events| ==> (events + [e])[i] == events[i];
    assert (events + [e])[|events|] == e;
    RunForgets(p, events, start);
    CallForgets(LimiterAfter(p, events), LedgerAfter(p, events), e, EndOf(events, start));
  }

  /** n events at one time, all for the same key. */
  function Burst(kind: Kind, now: int, n: nat): (events: seq<Event>)
    ensures |events| == n
  {
    seq(n, _ => Event("", kind, now))
  }

  lemma BurstGrows(pre: seq<Event>, kind: Kind, now: int, n: nat)
    ensures pre + Burst(kind, now, n + 1) == pre + Burst(kind, now, n) + [Event("", kind, now)]
  {
  }

  /** One more event keeps what holds. */
  ghost predicate OneMore(holds: (seq<Event>, nat) -> bool, e: Event, events: seq<Event>, i: nat) {
    holds(events, i) ==> holds(events + [e], i + 1)
  }

  lemma {:induction false} Repeated(holds: (seq<Event>, nat) -> bool, pre: seq<Event>, kind: Kind, now: int, n: nat)
    requires holds(pre, 0) && forall events, i: nat :: i < n ==> OneMore(holds, Event("", kind, now), events, i)
    ensures holds(pre + Burst(kind, now, n), n)
  {
    if n == 0 {
      assert pre + Burst(kind, now, 0) == pre;
    } else {
      Repeated(holds, pre, kind, now, n - 1);
      BurstGrows(pre, kind, now, n - 1);
      assert OneMore(holds, Event("", kind, now), pre + Burst(kind, now, n - 1), n - 1);
    }
  }

  lemma NoTimeNoGain(p: Limits, b: Bucket)
    requires b.tokens <= p.burst
    ensures Refilled(p, b, b.last) == b
  {
    GainAdds(p, 0, 0);
  }

  /** What n charges at time 0 leave of a full bucket. */
  function Debt(p: Limits, n: nat): Bucket {
    Bucket(MaxReal(p.burst - n as real, -p.burst), 0)
  }

  lemma ChargeAgain(p: Limits, n: nat)
    requires p.Valid()
    ensures Spent(p, Refilled(p, Debt(p, n), 0), Charge) == Debt(p, n + 1)
  {
    NoTimeNoGain(p, Debt(p, n));
  }

  /** Both limiters, in debt alike. */
  ghost predicate InDebt(p: Limits, m: Ledger, l: Limiter, n: nat) {
    m == map["" := Debt(p, n)] && l == Limiter(p, IdleTTL(p), m, Some(0))
  }

  lemma FirstCharge(p: Limits)
    requires p.Valid()
    ensures InDebt(p, Next(p, map[], "", Charge, 0), NewLimiter(p).Do("", Charge, 0), 1)
  {
    assert Sweep(NewLimiter(p), 0).buckets == map[];
  }

  lemma NextCharge(p: Limits, m: Ledger, l: Limiter, n: nat)
    requires p.Valid() && InDebt(p, m, l, n)
    ensures InDebt(p, Next(p, m, "", Charge, 0), l.Do("", Charge, 0), n + 1)
  {
    ChargeAgain(p, n);
    assert Sweep(l, 0) == l;
  }

  /** Charges at time 0 run both into the same debt. */
  lemma {:induction false} ChargedState(p: Limits, n: nat)
    requires p.Valid() && n > 0
    ensures InDebt(p, LedgerAfter(p, Burst(Charge, 0, n)), LimiterAfter(p, Burst(Charge, 0, n)), n)
  {
    var rest, e := Burst(Charge, 0, n - 1), Event("", Charge, 0);
    assert Burst(Charge, 0, n) == rest + [e];
    Append(p, rest, e);
    if n == 1 {
      assert rest == [];
      FirstCharge(p);
    } else {
      ChargedState(p, n - 1);
      NextCharge(p, LedgerAfter(p, rest), LimiterAfter(p, rest), n - 1);
    }
  }

  /** The tokens both give key "" at t: the ledger has less than the limiter, which has left. */
  ghost predicate Forgiven(p: Limits, events: seq<Event>, t: int, left: real) {
    var l := LimiterAfter(p, events);
    && l.limits == p && l.idleTTL == IdleTTL(p)
    && BucketAt(p, Sweep(l, t).buckets, "", t).tokens == left
    && BucketAt(p, LedgerAfter(p, events), "", t).tokens < left
  }

  /** One more Allow while the limiter has tokens to spare. */
  lemma ForgivenStep(p: Limits, events: seq<Event>, t: int, left: real)
    requires p.Valid() && left >= 2.0 && Forgiven(p, events, t, left)
    ensures Forgiven(p, events + [Event("", Allow, t)], t, left - 1.0)
  {
    Append(p, events, Event("", Allow, t));
    AllowAgain(p, LedgerAfter(p, events), t);
    var l := LimiterAfter(p, events);
    AllowAgain(p, Sweep(l, t).buckets, t);
    var l' := Call(l, "", Allow, t).0;
    assert Sweep(l', t).buckets[""] == l'.buckets[""];
  }

  /** After a debt the idle TTL does not cover, the ledger always has less than the limiter. */
  lemma {:induction false} ForgivenState(p: Limits, debt: nat, j: nat)
    requires p.Valid() && p.burst == debt as real && !Covers(p, IdleTTL(p)) && j < debt
    ensures var t := IdleTTL(p) + 1;
      Forgiven(p, Burst(Charge, 0, 2 * debt) + Burst(Allow, t, j), t, p.burst - j as real)
  {
    var t := IdleTTL(p) + 1;
    var pre := Burst(Charge, 0, 2 * debt);
    if j == 0 {
      assert pre + Burst(Allow, t, j) == pre;
      DebtIsForgiven(p, debt);
    } else {
      ForgivenState(p, debt, j - 1);
      BurstGrows(pre, Allow, t, j - 1);
      ForgivenStep(p, pre + Burst(Allow, t, j - 1), t, p.burst - (j - 1) as real);
    }
  }

  lemma DebtIsForgiven(p: Limits, debt: nat)
    requires p.Valid() && p.burst == debt as real && !Covers(p, IdleTTL(p))
    ensures Forgiven(p, Burst(Charge, 0, 2 * debt), IdleTTL(p) + 1, p.burst)
  {
    ChargedState(p, 2 * debt);
    assert Debt(p, 2 * debt).tokens == -p.burst;
  }

  lemma AllowAgain(p: Limits, m: Ledger, t: int)
    requires p.Valid()
    ensures var b := BucketAt(p, m, "", t);
      BucketAt(p, Next(p, m, "", Allow, t), "", t) == Spent(p, b, Allow)
  {
    NoTimeNoGain(p, Spent(p, BucketAt(p, m, "", t), Allow));
  }

  ghost predicate Differ(p: Limits, events: seq<Event>, e: Event) {
    InOrder(events + [e], 0) && Given(p, events, e) != Due(p, events, e)
  }

  /** The run that tells: a full debt charged at once, and a burst of Allows when the TTL is over. */
  lemma DebtShows(p: Limits, burst: nat)
    requires p.Valid() && p.burst == burst as real && !Covers(p, IdleTTL(p))
    ensures var t := IdleTTL(p) + 1;
      Differ(p, Burst(Charge, 0, 2 * burst) + Burst(Allow, t, burst - 1), Event("", Allow, t))
  {
    ForgivenState(p, burst, burst - 1);
  }

  /** The exact condition: with the configuration's whole-number burst, some run tells the
      sweeping limiter from the ledger unless two full refills take at most a day. */
  lemma SweepIsInvisibleExactly(p: Limits, burst: nat)
    requires p.Valid() && p.burst == burst as real
    ensures 2.0 * p.burst <= Gain(p, DAY + 1) <==> forall events, e :: !Differ(p, events, e)
  {
    IdleTTLCovers(p);
    if Covers(p, IdleTTL(p)) {
      forall events, e ensures !Differ(p, events, e) {
        if InOrder(events + [e], 0) {
          SweepIsInvisible(p, events, e, 0);
        }
      }
    } else {
      DebtShows(p, burst);
    }
  }

  // ------------------------------------------------------ how many get through

  /** How many Allows of key at time s or later the limiter let through. */
  function Admitted(p: Limits, events: seq<Event>, key: Key, s: int): nat {
    if events == [] then 0
    else
      var n, e := |events| - 1, events[|events| - 1];
      Admitted(p, events[..n], key, s) +
        if e.key == key && e.kind == Allow && e.now >= s && Given(p, events[..n], e) == Verdict(true) then 1 else 0
  }

  lemma SweepSound(l: Limiter, then_: int, now: int)
    requires Sound(l.limits, l.buckets, then_) && then_ <= now
    ensures Sound(l.limits, Sweep(l, now).buckets, now)
  {
  }

  /** A run keeps the limiter's settings and its buckets within bounds. */
  lemma {:induction false} LimiterSound(p: Limits, events: seq<Event>, start: int)
    requires p.Valid() && InOrder(events, start)
    ensures var l := LimiterAfter(p, events);
      l.limits == p && l.idleTTL == IdleTTL(p) && Sound(p, l.buckets, EndOf(events, start))
  {
    if events != [] {
      var n, e := |events| - 1, events[|events| - 1];
      LimiterSound(p, events[..n], start);
      var l := LimiterAfter(p, events[..n]);
      SweepSound(l, EndOf(events[..n], start), e.now);
      NextSound(p, Sweep(l, e.now).buckets, e.key, e.kind, e.now, e.now);
    }
  }

  lemma LaterTokens(p: Limits, m: Ledger, key: Key, then_: int, now: int)
    requires p.Valid() && Sound(p, m, then_) && then_ <= now
    ensures BucketAt(p, m, key, now).tokens <= BucketAt(p, m, key, then_).tokens + Gain(p, now - then_)
    ensures BucketAt(p, m, key, now).tokens <= p.burst
  {
    GainGrows(p, 0, now - then_);
    GainAdds(p, 0, 0);
    if key in m {
      GainAdds(p, then_ - m[key].last, now - then_);
    }
  }

  /**
   * The account of key since s: what was let through and what its bucket holds fit into burst and
   * what had accrued at the bucket's last use; with no bucket, into what has accrued by now.
   */
  ghost predicate Accounted(l: Limiter, key: Key, s: int, now: int, admitted: nat) {
    if key in l.buckets then
      var b := l.buckets[key];
      if b.last < s then admitted == 0
      else admitted as real + MaxReal(b.tokens, 0.0) <= l.limits.burst + Gain(l.limits, b.last - s)
    else admitted == 0 || (s <= now && admitted as real <= Gain(l.limits, now - s))
  }

  /** A bucket idle long enough to be dropped has accrued the burst it comes back with. */
  lemma SweepAccounted(l: Limiter, key: Key, s: int, then_: int, now: int, admitted: nat)
    requires l.limits.Valid() && l.limits.burst <= Gain(l.limits, l.idleTTL + 1)
    requires Accounted(l, key, s, then_, admitted) && then_ <= now
    ensures Accounted(Sweep(l, now), key, s, now, admitted)
  {
    var p := l.limits;
    if key !in l.buckets {
      GainGrows(p, then_ - s, now - s);
    } else if key !in Sweep(l, now).buckets {
      var last := l.buckets[key].last;
      GainGrows(p, l.idleTTL + 1, now - last);
      GainAdds(p, last - s, now - last);
    }
  }

  /** Topped up, and not yet spent. */
  lemma RefillAccounted(l: Limiter, key: Key, s: int, now: int, admitted: nat)
    requires l.limits.Valid() && Sound(l.limits, l.buckets, now) && Accounted(l, key, s, now, admitted)
    ensures
      var b := BucketAt(l.limits, l.buckets, key, now);
      if now < s then admitted == 0
      else admitted as real + MaxReal(b.tokens, 0.0) <= l.limits.burst + Gain(l.limits, now - s)
  {
    var p := l.limits;
    GainAdds(p, 0, 0);
    if s <= now {
      GainGrows(p, 0, now - s);
    }
    if key in l.buckets {
      GainAdds(p, l.buckets[key].last - s, now - l.buckets[key].last);
      GainGrows(p, 0, now - l.buckets[key].last);
    }
  }

  /** How many of key's Allows at s or later one event lets through. */
  function Counted(l: Limiter, e: Event, key: Key, s: int): nat {
    if e.key == key && e.kind == Allow && e.now >= s && l.Says(key, Allow, e.now) == Verdict(true) then 1 else 0
  }

  lemma {:induction false} AdmittedMore(p: Limits, events: seq<Event>, e: Event, key: Key, s: int)
    ensures Admitted(p, events + [e], key, s) ==
      Admitted(p, events, key, s) + Counted(LimiterAfter(p, events), e, key, s)
  {
    assert (events + [e])[..|events|] == events;
  }

  lemma CallAccounted(l: Limiter, e: Event, key: Key, s: int, then_: int, admitted: nat)
    requires l.limits.Valid() && l.limits.burst <= Gain(l.limits, l.idleTTL + 1)
    requires Sound(l.limits, l.buckets, then_) && Accounted(l, key, s, then_, admitted) && then_ <= e.now
    ensures Accounted(l.Do(e.key, e.kind, e.now), key, s, e.now, admitted + Counted(l, e, key, s))
  {
    SweepSound(l, then_, e.now);
    SweepAccounted(l, key, s, then_, e.now, admitted);
    if e.key == key {
      RefillAccounted(Sweep(l, e.now), key, s, e.now, admitted);
    }
  }

  /** The account is in order after events. */
  ghost function AccountedBy(p: Limits, key: Key, s: int, start: int): seq<Event> -> bool {
    (events: seq<Event>) => InOrder(events, start) ==>
      Accounted(LimiterAfter(p, events), key, s, EndOf(events, start), Admitted(p, events, key, s))
  }

  lemma {:induction false} AccountedStep(p: Limits, key: Key, s: int, start: int, events: seq<Event>, e: Event)
    requires p.Valid() && p.burst <= Gain(p, IdleTTL(p) + 1) && InOrder(events, start) && EndOf(events, start) <= e.now
    requires Accounted(LimiterAfter(p, events), key, s, EndOf(events, start), Admitted(p, events, key, s))
    ensures Accounted(LimiterAfter(p, events + [e]), key, s, e.now, Admitted(p, events + [e], key, s))
  {
    LimiterSound(p, events, start);
    Append(p, events, e);
    AdmittedMore(p, events, e, key, s);
    CallAccounted(LimiterAfter(p, events), e, key, s, EndOf(events, start), Admitted(p, events, key, s));
  }

  lemma {:induction false} AccountedOneMore(p: Limits, key: Key, s: int, start: int, events: seq<Event>, e: Event)
    requires p.Valid() && p.burst <= Gain(p, IdleTTL(p) + 1)
    ensures Extends(AccountedBy(p, key, s, start), events, e)
  {
    if InOrder(events + [e], start) && AccountedBy(p, key, s, start)(events) {
      OrderBefore(events, e, start);
      AccountedStep(p, key, s, start, events, e);
    }
  }

  lemma OrderBefore(events: seq<Event>, e: Event, start: int)
    requires InOrder(events + [e], start)
    ensures InOrder(events, start) && EndOf(events, start) <= e.now == EndOf(events + [e], start)
  {
    var more := events + [e];
    assert forall i :: 0 <= i < |events| ==> more[i] == events[i];
    assert more[|events|] == e;
  }

  lemma {:induction false} RunAccounted(p: Limits, events: seq<Event>, key: Key, s: int, start: int)
    requires p.Valid() && p.burst <= Gain(p, IdleTTL(p) + 1) && InOrder(events, start)
    ensures Accounted(LimiterAfter(p, events), key, s, EndOf(events, start), Admitted(p, events, key, s))
  {
    forall before, e ensures Extends(AccountedBy(p, key, s, start), before, e) {
      AccountedOneMore(p, key, s, start, before, e);
    }
    ByEvents(AccountedBy(p, key, s, start), events);
  }

  /** Main result: in any stretch of time from s to the run's last call, the limiter, sweeping
      and all, lets through at most burst plus what the stretch refills, when one refill takes at
      most a day. */
  lemma {:induction false} AllowsAreBounded(p: Limits, events: seq<Event>, key: Key, s: int, start: int)
    requires p.Valid() && p.burst <= Gain(p, DAY + 1) && InOrder(events, start) && s <= EndOf(events, start)
    ensures Admitted(p, events, key, s) as real <= p.burst + Gain(p, EndOf(events, start) - s)
  {
    IdleTTLRefills(p, p.burst);
    RunAccounted(p, events, key, s, start);
    LimiterSound(p, events, start);
    var end, l := EndOf(events, start), LimiterAfter(p, events);
    GainAdds(p, 0, 0);
    GainGrows(p, 0, end - s);
    if key in l.buckets {
      GainGrows(p, l.buckets[key].last - s, end - s);
    }
  }

  /** More than burst and what the stretch refills was let through. */
  ghost predicate Overspends(p: Limits, events: seq<Event>, key: Key, s: int) {
    InOrder(events, s) && Admitted(p, events, key, s) as real > p.burst + Gain(p, EndOf(events, s) - s)
  }

  /** A second call at the same instant finds what the first left. */
  lemma SameInstant(l: Limiter, key: Key, kind: Kind, now: int)
    requires l.idleTTL > 0 && l.limits.Valid() && l.Sees(key, now).tokens <= l.limits.burst
    ensures var m := l.Do(key, kind, now);
      && m.Sees(key, now) == Spent(l.limits, l.Sees(key, now), kind)
      && m.limits == l.limits && m.idleTTL == l.idleTTL
      && key in m.buckets && m.buckets[key].last == now
  {
    var m := l.Do(key, kind, now);
    NoTimeNoGain(l.limits, Spent(l.limits, l.Sees(key, now), kind));
    assert key in Sweep(m, now).buckets && Sweep(m, now).buckets[key] == m.buckets[key];
  }

  /** key's bucket was used then, and the last sweep was no later. */
  predicate JustUsed(l: Limiter, key: Key, then_: int) {
    key in l.buckets && l.buckets[key].last == then_ && l.lastSweep.Some? && SweptBy(l, then_)
  }

  predicate SweptBy(l: Limiter, t: int) {
    l.lastSweep.Some? ==> l.lastSweep.value <= t
  }

  /** A bucket not used since is gone once its idle TTL is over. */
  lemma IdleIsDropped(l: Limiter, key: Key, then_: int)
    requires l.idleTTL > 0 && JustUsed(l, key, then_)
    ensures l.Sees(key, then_ + l.idleTTL + 1) == Bucket(l.limits.burst, then_ + l.idleTTL + 1)
  {
  }

  /** At t key "" has left tokens, and admitted of its Allows since 0 were let through, the last
      of them at t when it was just used. */
  ghost predicate Stocked(p: Limits, events: seq<Event>, t: int, left: real, admitted: nat, used: bool) {
    var l := LimiterAfter(p, events);
    && l.limits == p && l.idleTTL == IdleTTL(p) && l.Sees("", t) == Bucket(left, t)
    && SweptBy(l, t) && (used ==> JustUsed(l, "", t))
    && Admitted(p, events, "", 0) == admitted
  }

  lemma {:induction false} StockedStep(p: Limits, events: seq<Event>, t: nat, left: real, admitted: nat, used: bool)
    requires p.Valid() && Stocked(p, events, t, left, admitted, used) && 1.0 <= left <= p.burst
    ensures Stocked(p, events + [Event("", Allow, t)], t, left - 1.0, admitted + 1, true)
  {
    Append(p, events, Event("", Allow, t));
    SameInstant(LimiterAfter(p, events), "", Allow, t);
    assert (events + [Event("", Allow, t)])[..|events|] == events;
  }

  /** Stocked after i more Allows. */
  ghost function StockedBy(p: Limits, t: int, admitted: nat): (seq<Event>, nat) -> bool {
    (events: seq<Event>, i: nat) => Stocked(p, events, t, p.burst - i as real, admitted + i, i > 0)
  }

  lemma StockedOneMore(p: Limits, t: nat, admitted: nat, events: seq<Event>, i: nat)
    requires p.Valid() && (i + 1) as real <= p.burst
    ensures OneMore(StockedBy(p, t, admitted), Event("", Allow, t), events, i)
  {
    if StockedBy(p, t, admitted)(events, i) {
      StockedStep(p, events, t, p.burst - i as real, admitted + i, i > 0);
    }
  }

  lemma StockedRun(p: Limits, pre: seq<Event>, t: nat, admitted: nat, n: nat)
    requires p.Valid() && n as real <= p.burst && StockedBy(p, t, admitted)(pre, 0)
    ensures StockedBy(p, t, admitted)(pre + Burst(Allow, t, n), n)
  {
    forall events, i: nat | i < n ensures OneMore(StockedBy(p, t, admitted), Event("", Allow, t), events, i) {
      StockedOneMore(p, t, admitted, events, i);
    }
    Repeated(StockedBy(p, t, admitted), pre, Allow, t, n);
  }

  /** The run that overspends: burst Allows, and burst more once the idle TTL is over. */
  function TwoBursts(p: Limits, burst: nat): seq<Event> {
    Burst(Allow, 0, burst) + Burst(Allow, IdleTTL(p) + 1, burst)
  }

  lemma StockedAtFirst(p: Limits)
    ensures Stocked(p, [], 0, p.burst, 0, false)
  {
    assert Sweep(NewLimiter(p), 0).buckets == map[];
  }

  /** After burst Allows, and the idle TTL, the bucket is back as new. */
  lemma StockedAgain(p: Limits, burst: nat)
    requires p.Valid() && p.burst == burst as real
    ensures StockedBy(p, IdleTTL(p) + 1, burst)(Burst(Allow, 0, burst), 0)
  {
    var pre := Burst(Allow, 0, burst);
    assert [] + pre == pre;
    StockedAtFirst(p);
    StockedRun(p, [], 0, 0, burst);
    IdleRestocks(p, pre, burst);
  }

  lemma IdleRestocks(p: Limits, pre: seq<Event>, burst: nat)
    requires p.Valid() && Stocked(p, pre, 0, 0.0, burst, true)
    ensures Stocked(p, pre, IdleTTL(p) + 1, p.burst, burst, false)
  {
    IdleIsDropped(LimiterAfter(p, pre), "", 0);
  }

  lemma {:induction false} StockedByAdmits(p: Limits, t: int, admitted: nat, events: seq<Event>, i: nat)
    requires StockedBy(p, t, admitted)(events, i)
    ensures Admitted(p, events, "", 0) == admitted + i
  {
  }

  lemma {:induction false} TwoBurstsAdmitted(p: Limits, burst: nat)
    requires p.Valid() && p.burst == burst as real
    ensures Admitted(p, TwoBursts(p, burst), "", 0) == 2 * burst
  {
    StockedAgain(p, burst);
    StockedRun(p, Burst(Allow, 0, burst), IdleTTL(p) + 1, burst, burst);
    StockedByAdmits(p, IdleTTL(p) + 1, burst, TwoBursts(p, burst), burst);
  }

  lemma TwoBurstsOverspend(p: Limits, burst: nat)
    requires p.Valid() && p.burst == burst as real && p.burst > Gain(p, IdleTTL(p) + 1)
    ensures Overspends(p, TwoBursts(p, burst), "", 0)
  {
    TwoBurstsAdmitted(p, burst);
    var events := TwoBursts(p, burst);
    assert events[|events| - 1].now == IdleTTL(p) + 1;
  }

  /** The exact condition, with the configuration's whole-number burst: one refill takes at most a day. */
  lemma AllowsAreBoundedExactly(p: Limits, burst: nat)
    requires p.Valid() && p.burst == burst as real
    ensures p.burst <= Gain(p, DAY + 1) <==> forall events, key, s :: !Overspends(p, events, key, s)
  {
    if p.burst <= Gain(p, DAY + 1) {
      forall events, key, s ensures !Overspends(p, events, key, s) {
        if Overspends(p, events, key, s) {
          AllowsAreBounded(p, events, key, s, s);
        }
      }
    } else {
      IdleTTLRefills(p, p.burst);
      TwoBurstsOverspend(p, burst);
    }
  }

  // ------------------------------------------------------------------- what sweeping keeps

  /** The last sweep is within the idle TTL, and no bucket was idle for longer than that by then. */
  ghost predicate Recent(l: Limiter, now: int) {
    && l.lastSweep.Some? && l.lastSweep.value <= now < l.lastSweep.value + l.idleTTL
    && forall k <- l.buckets :: l.buckets[k].last >= l.lastSweep.value - l.idleTTL
  }

  /** A limiter that was never called, or is as its last call left it. */
  ghost predicate SweptTo(l: Limiter, now: int) {
    && l.idleTTL > 0
    && (l.lastSweep.None? ==> l.buckets == map[])
    && (l.lastSweep.Some? ==>
          && l.lastSweep.value <= now
          && forall k <- l.buckets :: l.buckets[k].last >= l.lastSweep.value - l.idleTTL)
  }

  lemma CallSwept(l: Limiter, e: Event, then_: int)
    requires SweptTo(l, then_) && then_ <= e.now
    ensures var m := l.Do(e.key, e.kind, e.now); SweptTo(m, e.now) && Recent(m, e.now) && m.idleTTL == l.idleTTL
  {
  }

  lemma {:induction false} RunSwept(p: Limits, events: seq<Event>, start: int)
    requires InOrder(events, start)
    ensures LimiterAfter(p, events).idleTTL == IdleTTL(p) && SweptTo(LimiterAfter(p, events), EndOf(events, start))
  {
    if events != [] {
      var rest, e := events[..|events| - 1], events[|events| - 1];
      RunSwept(p, rest, start);
      CallSwept(LimiterAfter(p, rest), e, EndOf(rest, start));
    }
  }

  /** However many keys there were, after any call no bucket is held that was idle for two idle TTLs. */
  lemma {:induction false} BucketsAreRecent(p: Limits, events: seq<Event>, e: Event, key: Key, start: int)
    requires InOrder(events, start) && EndOf(events, start) <= e.now
    requires key in LimiterAfter(p, events + [e]).buckets
    ensures e.now - LimiterAfter(p, events + [e]).buckets[key].last < 2 * IdleTTL(p)
  {
    RunSwept(p, events, start);
    Append(p, events, e);
    CallSwept(LimiterAfter(p, events), e, EndOf(events, start));
  }
}
