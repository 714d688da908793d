/**
 * Who pays which bucket, and when (internal/api/middleware.go:216-407). A request on an
 * authenticated or media route is refused while its address's bucket is empty, is looked up,
 * and only then pays: its address for a failure or a refusal, its credential otherwise, a demo
 * session its address again; a refusal then asks how long to wait. Checking reserves nothing, so
 * requests interleave between the check and the payment; every interleaving is a run of the
 * transition system below, one step for each call of a limiter, which sweeps as it does.
 */
module Admission {
  import opened Basics
  import opened TokenBucket

  datatype Config = Config(ip: Limits, token: Limits, media: Limits)

  /** The route classes of rateLimit: static files, media, per-credential and the rest. */
  datatype Route = Static | Media | TokenKeyed | General

  datatype Phase =
    | Arrived
    | AtAuth                   // let through to authLimited
    | Checking                 // past Ready: its token is being looked up
    | Spending(id: Key)        // authenticated by credential id
    | SpendingDemo             // authenticated as a demo session
    | Owing(cred: Option<Key>) // refused after its lookup, about to pay for it
    | Told(id: Key)            // about to ask its credential's wait
    | Telling(ns: int)         // about to ask its address's wait, its credential's known
    | Served
    | Unauthorized
    | Limited(ns: int)         // answered to come back after ns

  datatype Request = Request(addr: Key, route: Route, phase: Phase) {
    /** Between passing Ready and settling. */
    predicate InFlight() {
      phase.Checking? || phase.Spending? || phase.SpendingDemo? || phase.Owing?
    }
  }

  /** paid counts the payments each address has made into its bucket. */
  datatype State = State(now: int, ip: Limiter, token: Limiter, media: Limiter,
                         requests: map<nat, Request>, paid: map<Key, nat>)

  datatype Step =
    | Tick(dt: nat)
    | Arrive(r: nat, addr: Key, route: Route)
    | Limit(r: nat)               // rateLimit
    | Check(r: nat)               // authLimited's Ready
    | AuthFails(r: nat)
    | AuthOk(r: nat, id: Key)
    | AuthDemo(r: nat)
    | Spend(r: nat)               // allowCredential
    | Pay(r: nat)                 // the charge a refusal makes
    | TellCredential(r: nat)      // the credential's Wait
    | Tell(r: nat)                // the address's Wait

  ghost predicate Init(c: Config, s: State) {
    && s.ip == NewLimiter(c.ip) && s.token == NewLimiter(c.token) && s.media == NewLimiter(c.media)
    && s.requests == map[] && s.paid == map[]
  }

  ghost predicate Enabled(s: State, step: Step) {
    match step
    case Tick(_) => true
    case Arrive(r, _, _) => r !in s.requests
    case Limit(r) => r in s.requests && s.requests[r].phase.Arrived?
    case Check(r) => r in s.requests && s.requests[r].phase.AtAuth?
    case AuthFails(r) => r in s.requests && s.requests[r].phase.Checking?
    case AuthOk(r, _) => r in s.requests && s.requests[r].phase.Checking?
    case AuthDemo(r) => r in s.requests && s.requests[r].phase.Checking?
    case Spend(r) => r in s.requests && (s.requests[r].phase.Spending? || s.requests[r].phase.SpendingDemo?)
    case Pay(r) => r in s.requests && s.requests[r].phase.Owing?
    case TellCredential(r) => r in s.requests && s.requests[r].phase.Told?
    case Tell(r) => r in s.requests && s.requests[r].phase.Telling?
  }

  function Paid(s: State, a: Key): nat {
    if a in s.paid then s.paid[a] else 0
  }

  function Goes(s: State, r: nat, phase: Phase): State
    requires r in s.requests
  {
    s.(requests := s.requests[r := s.requests[r].(phase := phase)])
  }

  /** Whether address a's bucket has a token now. */
  predicate Has(s: State, a: Key) {
    s.ip.Sees(a, s.now).tokens >= 1.0
  }

  /** A call on address a's bucket; a payment is counted. */
  function OnAddress(s: State, a: Key, kind: Kind): State {
    var pays := kind == Charge || (kind == Allow && Has(s, a));
    s.(ip := s.ip.Do(a, kind, s.now), paid := if pays then s.paid[a := Paid(s, a) + 1] else s.paid)
  }

  /** The limiter a route's credentials spend from. */
  function LimiterOf(s: State, route: Route): Limiter {
    if route.Media? then s.media else s.token
  }

  function OnCredential(s: State, route: Route, id: Key, kind: Kind): State {
    if route.Media? then s.(media := s.media.Do(id, kind, s.now)) else s.(token := s.token.Do(id, kind, s.now))
  }

  ghost function After(s: State, step: Step): State
    requires Enabled(s, step)
  {
    match step
    case Tick(dt) => s.(now := s.now + dt)
    case Arrive(r, addr, route) => s.(requests := s.requests[r := Request(addr, route, Arrived)])
    case Limit(r) =>
      var q := s.requests[r];
      match q.route {
        case Static => Goes(s, r, Served)
        case General => Goes(OnAddress(s, q.addr, Allow), r, if Has(s, q.addr) then Served else Telling(0))
        case _ => Goes(OnAddress(s, q.addr, Ready), r, if Has(s, q.addr) then AtAuth else Telling(0))
      }
    case Check(r) =>
      var q := s.requests[r];
      Goes(OnAddress(s, q.addr, Ready), r, if Has(s, q.addr) then Checking else Telling(0))
    case AuthFails(r) => Goes(OnAddress(s, s.requests[r].addr, Charge), r, Unauthorized)
    case AuthOk(r, id) => Goes(s, r, Spending(id))
    case AuthDemo(r) => Goes(s, r, SpendingDemo)
    case Spend(r) =>
      var q := s.requests[r];
      if q.phase.SpendingDemo? then
        Goes(OnAddress(s, q.addr, Allow), r, if Has(s, q.addr) then Served else Owing(None))
      else
        var b := LimiterOf(s, q.route).Sees(q.phase.id, s.now);
        Goes(OnCredential(s, q.route, q.phase.id, Allow), r,
             if b.tokens >= 1.0 then Served else Owing(Some(q.phase.id)))
    case Pay(r) =>
      var q := s.requests[r];
      Goes(OnAddress(s, q.addr, Charge), r, if q.phase.cred.Some? then Told(q.phase.cred.value) else Telling(0))
    case TellCredential(r) =>
      var q := s.requests[r];
      Goes(OnCredential(s, q.route, q.phase.id, Wait), r,
           Telling(LimiterOf(s, q.route).Says(q.phase.id, Wait, s.now).ns))
    case Tell(r) =>
      var q := s.requests[r];
      Goes(OnAddress(s, q.addr, Wait), r, Limited(Max(q.phase.ns, s.ip.Says(q.addr, Wait, s.now).ns)))
  }

  ghost predicate Run(c: Config, trace: seq<State>, steps: seq<Step>) {
    && |trace| == |steps| + 1 && Init(c, trace[0])
    && forall i :: 0 <= i < |steps| ==> Enabled(trace[i], steps[i]) && trace[i + 1] == After(trace[i], steps[i])
  }

  // ------------------------------------------------------------- requests in flight

  ghost function Flying(s: State, a: Key): set<nat> {
    set r | r in s.requests && s.requests[r].addr == a && s.requests[r].InFlight()
  }

  ghost function Flight(s: State, a: Key): nat { |Flying(s, a)| }

  predicate Counts(q: Request, a: Key) { q.addr == a && q.InFlight() }

  /** How one request's change of phase moves the count. */
  lemma FlightMoves(s: State, s': State, a: Key, r: nat, q': Request)
    requires s'.requests == s.requests[r := q']
    requires r in s.requests ==> s.requests[r].addr == q'.addr
    ensures var was := r in s.requests && Counts(s.requests[r], a);
      Flight(s', a) == Flight(s, a) + (if Counts(q', a) then 1 else 0) - (if was then 1 else 0)
  {
    var f, f' := Flying(s, a), Flying(s', a);
    forall x ensures x in f' <==> if x == r then Counts(q', a) else x in f {
    }
    if Counts(q', a) {
      assert f' == f + {r};
    } else {
      assert f' == f - {r};
    }
  }

  // ------------------------------------------------------------- what an address pays

  /** The tokens address a has now, no sweep in between. */
  function Tokens(s: State, a: Key): real {
    BucketAt(s.ip.limits, s.ip.buckets, a, s.now).tokens
  }

  /** What all its runs keep of the address limiter. */
  ghost predicate Kept(c: Config, s: State) {
    s.ip.limits == c.ip && s.ip.idleTTL == IdleTTL(c.ip) && Sound(c.ip, s.ip.buckets, s.now)
  }

  /** A debt of at most k and a full bucket are refilled within the idle TTL. */
  ghost predicate Repays(c: Config, k: nat) {
    c.ip.Valid() && k as real <= c.ip.burst && c.ip.burst + k as real <= Gain(c.ip, IdleTTL(c.ip) + 1)
  }

  /**
   * What a run keeps for an address that never has more than k requests in flight: the debt is
   * never deeper than the requests that already settled, so the floor of a charge is never met,
   * and a sweep drops its bucket only when it is full again.
   */
  ghost predicate Inv(c: Config, s: State, a: Key, k: nat) {
    && Kept(c, s)
    && Tokens(s, a) >= Flight(s, a) as real - k as real
    && (a in s.ip.buckets ==> s.ip.buckets[a].tokens >= -(k as real))
  }

  /** Dropping a bucket with no more than k of debt changes nothing a call could see. */
  lemma SeesAsIs(l: Limiter, a: Key, now: int, k: nat)
    requires l.limits.Valid() && Sound(l.limits, l.buckets, now)
    requires l.limits.burst + k as real <= Gain(l.limits, l.idleTTL + 1)
    requires a in l.buckets ==> l.buckets[a].tokens >= -(k as real)
    ensures l.Sees(a, now) == BucketAt(l.limits, l.buckets, a, now)
  {
    if a in l.buckets && a !in Sweep(l, now).buckets {
      GainGrows(l.limits, l.idleTTL + 1, now - l.buckets[a].last);
    }
  }

  /** A call of the limiter, as it changes one key's tokens. */
  lemma CallLeaves(l: Limiter, b: Key, kind: Kind, now: int, a: Key, k: nat)
    requires l.limits.Valid() && Sound(l.limits, l.buckets, now)
    requires l.limits.burst + k as real <= Gain(l.limits, l.idleTTL + 1)
    requires a in l.buckets ==> l.buckets[a].tokens >= -(k as real)
    ensures var m, was := l.Do(b, kind, now), BucketAt(l.limits, l.buckets, a, now);
      && m.limits == l.limits && m.idleTTL == l.idleTTL && Sound(l.limits, m.buckets, now)
      && -l.limits.burst <= was.tokens <= l.limits.burst
      && BucketAt(l.limits, m.buckets, a, now) == (if a == b then Spent(l.limits, was, kind) else was)
      && (a in m.buckets ==>
        m.buckets[a].tokens == (if a == b then Spent(l.limits, was, kind).tokens else l.buckets[a].tokens))
  {
    SeesAsIs(l, a, now, k);
    SweepSound(l, now, now);
    NextSound(l.limits, Sweep(l, now).buckets, b, kind, now, now);
    if a in l.buckets {
      RefillBounds(l.limits, l.buckets[a], now);
    }
    NoTimeNoGain(l.limits, Spent(l.limits, l.Sees(a, now), kind));
  }

  /** From s to t, address a paid no more than its bucket gave. */
  ghost predicate Covered(s: State, t: State, a: Key) {
    && s.now <= t.now && t.ip.limits == s.ip.limits
    && Paid(t, a) as real + Tokens(t, a) <= Paid(s, a) as real + Tokens(s, a) + Gain(s.ip.limits, t.now - s.now)
  }

  /** One step: the invariant, and no payment that the bucket did not give. */
  ghost predicate Paying(c: Config, s: State, t: State, a: Key, k: nat) {
    Inv(c, t, a, k) && Covered(s, t, a)
  }

  lemma TickPays(c: Config, s: State, dt: nat, a: Key, k: nat)
    requires c.ip.Valid() && Inv(c, s, a, k)
    ensures Paying(c, s, After(s, Tick(dt)), a, k)
  {
    var t := After(s, Tick(dt));
    assert Flying(t, a) == Flying(s, a);
    LaterTokens(c.ip, s.ip.buckets, a, s.now, t.now);
    GainGrows(c.ip, 0, dt);
    if a in s.ip.buckets {
      GainGrows(c.ip, s.now - s.ip.buckets[a].last, t.now - s.ip.buckets[a].last);
    }
  }

  /** A call on one address's bucket spends from it what it pays, while a charge has the room. */
  lemma AddressCall(c: Config, s: State, b: Key, kind: Kind, a: Key, k: nat)
    requires Repays(c, k) && Kept(c, s)
    requires a in s.ip.buckets ==> s.ip.buckets[a].tokens >= -(k as real)
    requires kind == Charge && b == a ==> Tokens(s, a) - 1.0 >= -c.ip.burst
    ensures var t := OnAddress(s, b, kind);
      && Kept(c, t)
      && Paid(t, a) as real + Tokens(t, a) == Paid(s, a) as real + Tokens(s, a)
      && (a in t.ip.buckets ==> t.ip.buckets[a].tokens == if a == b then Tokens(t, a) else s.ip.buckets[a].tokens)
  {
    CallLeaves(s.ip, b, kind, s.now, a, k);
    SeesAsIs(s.ip, a, s.now, k);
  }

  /** A request moves on after a call on its address's bucket. */
  lemma CallPaysFor(c: Config, s: State, r: nat, kind: Kind, phase: Phase, a: Key, k: nat)
    requires Repays(c, k) && Inv(c, s, a, k) && r in s.requests
    requires var t := Goes(OnAddress(s, s.requests[r].addr, kind), r, phase); Flight(t, a) <= k && Flight(s, a) <= k
    requires var q, q' := s.requests[r], s.requests[r].(phase := phase);
      && (kind == Charge ==> q.InFlight() && !q'.InFlight())
      && (q'.InFlight() && !q.InFlight() ==> kind == Ready && Has(s, q.addr))
    ensures Paying(c, s, Goes(OnAddress(s, s.requests[r].addr, kind), r, phase), a, k)
  {
    var q, q' := s.requests[r], s.requests[r].(phase := phase);
    var t := Goes(OnAddress(s, q.addr, kind), r, phase);
    FlightMoves(s, t, a, r, q');
    if q.addr == a && kind == Charge {
      assert r in Flying(s, a);
    }
    SeesAsIs(s.ip, a, s.now, k);
    AddressCall(c, s, q.addr, kind, a, k);
    GainAdds(c.ip, 0, 0);
  }

  /** A request moves on without touching any address's bucket. */
  lemma QuietPays(c: Config, s: State, t: State, r: nat, q': Request, a: Key, k: nat)
    requires c.ip.Valid() && Inv(c, s, a, k)
    requires t.ip == s.ip && t.now == s.now && t.paid == s.paid && t.requests == s.requests[r := q']
    requires r in s.requests ==> s.requests[r].addr == q'.addr
    requires q'.InFlight() ==> r in s.requests && s.requests[r].InFlight()
    ensures Paying(c, s, t, a, k)
  {
    FlightMoves(s, t, a, r, q');
    GainAdds(c.ip, 0, 0);
  }

  /** The steps that call the request's address's bucket, and how. */
  ghost predicate CallsAddress(s: State, step: Step)
    requires Enabled(s, step)
  {
    match step
    case Limit(r) => !s.requests[r].route.Static?
    case Check(_) => true
    case AuthFails(_) => true
    case Spend(r) => s.requests[r].phase.SpendingDemo?
    case Pay(_) => true
    case Tell(_) => true
    case _ => false
  }

  ghost function KindOf(s: State, step: Step): Kind
    requires Enabled(s, step) && CallsAddress(s, step)
  {
    match step
    case Limit(r) => if s.requests[r].route.General? then Allow else Ready
    case Check(_) => Ready
    case Spend(_) => Allow
    case Tell(_) => Wait
    case _ => Charge
  }

  lemma CallStepPays(c: Config, s: State, step: Step, a: Key, k: nat)
    requires Repays(c, k) && Inv(c, s, a, k) && Enabled(s, step)
    requires Flight(s, a) <= k && Flight(After(s, step), a) <= k
    requires CallsAddress(s, step)
    ensures Paying(c, s, After(s, step), a, k)
  {
    var t, r, kind := After(s, step), step.r, KindOf(s, step);
    var q, phase := s.requests[r], t.requests[r].phase;
    assert t == Goes(OnAddress(s, q.addr, kind), r, phase);
    CallPaysFor(c, s, r, kind, phase, a, k);
  }

  lemma StepPays(c: Config, s: State, step: Step, a: Key, k: nat)
    requires Repays(c, k) && Inv(c, s, a, k) && Enabled(s, step)
    requires Flight(s, a) <= k && Flight(After(s, step), a) <= k
    ensures Paying(c, s, After(s, step), a, k)
  {
    var t := After(s, step);
    if step.Tick? {
      TickPays(c, s, step.dt, a, k);
    } else if CallsAddress(s, step) {
      CallStepPays(c, s, step, a, k);
    } else {
      QuietPays(c, s, t, step.r, t.requests[step.r], a, k);
    }
  }

  /** Address a never has more than k requests in flight. */
  ghost predicate Few(trace: seq<State>, a: Key, k: nat) {
    forall n :: 0 <= n < |trace| ==> Flight(trace[n], a) <= k
  }

  lemma NextPays(c: Config, trace: seq<State>, steps: seq<Step>, a: Key, k: nat, i: nat)
    requires Repays(c, k) && Run(c, trace, steps) && i < |steps| && Few(trace, a, k) && Inv(c, trace[i], a, k)
    ensures Paying(c, trace[i], trace[i + 1], a, k)
  {
    assert Enabled(trace[i], steps[i]) && trace[i + 1] == After(trace[i], steps[i]);
    assert Flight(trace[i], a) <= k && Flight(trace[i + 1], a) <= k;
    StepPays(c, trace[i], steps[i], a, k);
  }

  lemma {:induction false} RunPays(c: Config, trace: seq<State>, steps: seq<Step>, a: Key, k: nat, i: nat)
    requires Repays(c, k) && Run(c, trace, steps) && i < |trace| && Few(trace, a, k)
    ensures Inv(c, trace[i], a, k)
  {
    if i == 0 {
      assert Flying(trace[0], a) == {};
    } else {
      RunPays(c, trace, steps, a, k, i - 1);
      NextPays(c, trace, steps, a, k, i - 1);
    }
  }

  lemma CoveredJoins(s: State, m: State, t: State, a: Key)
    requires Covered(s, m, a) && Covered(m, t, a)
    ensures Covered(s, t, a)
  {
    GainAdds(s.ip.limits, m.now - s.now, t.now - m.now);
  }

  lemma {:induction false} StretchPays(c: Config, trace: seq<State>, steps: seq<Step>, a: Key, k: nat, i: nat, j: nat)
    requires Repays(c, k) && Run(c, trace, steps) && i <= j < |trace| && Few(trace, a, k)
    ensures Covered(trace[i], trace[j], a)
  {
    if i == j {
      GainAdds(trace[i].ip.limits, 0, 0);
    } else {
      StretchPays(c, trace, steps, a, k, i, j - 1);
      RunPays(c, trace, steps, a, k, j - 1);
      NextPays(c, trace, steps, a, k, j - 1);
      CoveredJoins(trace[i], trace[j - 1], trace[j], a);
    }
  }

  /** What address a paid from s to t and has in flight at t, within burst, the time between and k. */
  ghost predicate Within(c: Config, s: State, t: State, a: Key, k: nat) {
    (Paid(t, a) + Flight(t, a)) as real <= Paid(s, a) as real + c.ip.burst + Gain(c.ip, t.now - s.now) + k as real
  }

  /**
   * Main result: if address a never has more than k <= burst requests in flight, and burst + k
   * tokens accrue in a day, then between any two moments of a run the payments it made (general
   * requests, failed authentications, refused credentials, demo requests) and the requests still in
   * flight are at most burst + k and what the time between refills, however its requests interleave
   * and whatever the limiter sweeps.
   */
  lemma PaymentsAreBounded(c: Config, trace: seq<State>, steps: seq<Step>, a: Key, k: nat, i: nat, j: nat)
    requires c.ip.Valid() && k as real <= c.ip.burst && c.ip.burst + k as real <= Gain(c.ip, DAY + 1)
    requires Run(c, trace, steps) && i <= j < |trace| && Few(trace, a, k)
    ensures Within(c, trace[i], trace[j], a, k)
  {
    IdleTTLRefills(c.ip, c.ip.burst + k as real);
    StretchPays(c, trace, steps, a, k, i, j);
    RunPays(c, trace, steps, a, k, i);
    RunPays(c, trace, steps, a, k, j);
    BucketAtMost(c.ip, trace[i].ip.buckets, a, trace[i].now);
  }

  lemma BucketAtMost(p: Limits, m: Ledger, a: Key, now: int)
    requires p.Valid()
    ensures BucketAt(p, m, a, now).tokens <= p.burst
  {
  }

  // ------------------------------------------------------------- when it does not hold

  /** A state some run gets to from time 0, address "" never having more than k requests in flight. */
  ghost predicate Reachable(c: Config, k: nat, s: State) {
    exists trace, steps :: Gets(c, k, trace, steps, s)
  }

  ghost predicate Gets(c: Config, k: nat, trace: seq<State>, steps: seq<Step>, s: State) {
    Run(c, trace, steps) && trace[0].now == 0 && trace[|steps|] == s && Few(trace, "", k)
  }

  lemma ReachesMore(c: Config, k: nat, s: State, step: Step)
    requires Reachable(c, k, s) && Enabled(s, step) && Flight(After(s, step), "") <= k
    ensures Reachable(c, k, After(s, step))
  {
    var trace, steps :| Gets(c, k, trace, steps, s);
    var t := After(s, step);
    var trace', steps' := trace + [t], steps + [step];
    forall i | 0 <= i < |steps'| ensures Enabled(trace'[i], steps'[i]) && trace'[i + 1] == After(trace'[i], steps'[i]) {
      if i < |steps| {
        assert Enabled(trace[i], steps[i]) && trace[i + 1] == After(trace[i], steps[i]);
      }
    }
    assert forall n :: 0 <= n < |trace| ==> Flight(trace[n], "") <= k;
    assert Gets(c, k, trace', steps', t);
  }

  /** At s.now address "" has left tokens, flight requests in flight and has paid so much; ids from n are new. */
  ghost predicate Standing(c: Config, s: State, left: real, n: nat, flight: int, paid: nat) {
    && s.ip.limits == c.ip && s.ip.idleTTL == IdleTTL(c.ip)
    && s.ip.Sees("", s.now) == Bucket(left, s.now)
    && (s.ip.lastSweep.Some? ==> s.ip.lastSweep.value <= s.now)
    && (forall r <- s.requests :: r < n)
    && Flight(s, "") == flight && Paid(s, "") == paid
  }

  /** Requests lo up to hi are being looked up. */
  ghost predicate Looking(s: State, lo: nat, hi: nat) {
    forall r :: lo <= r < hi ==> r in s.requests && s.requests[r].addr == "" && s.requests[r].phase.Checking?
  }

  lemma ArriveStands(c: Config, k: nat, s: State, route: Route, left: real, n: nat, flight: nat, paid: nat)
    returns (t: State)
    requires Reachable(c, k, s) && Standing(c, s, left, n, flight, paid) && flight <= k
    ensures t == After(s, Arrive(n, "", route))
    ensures Reachable(c, k, t) && Standing(c, t, left, n + 1, flight, paid)
  {
    t := After(s, Arrive(n, "", route));
    FlightMoves(s, t, "", n, Request("", route, Arrived));
    ReachesMore(c, k, s, Arrive(n, "", route));
  }

  /** A request of "" moves on after a call on its bucket. */
  lemma CallStands(c: Config, k: nat, s: State, step: Step, left: real, n: nat, flight: nat, paid: nat)
    returns (t: State)
    requires c.ip.Valid() && Reachable(c, k, s) && Standing(c, s, left, n, flight, paid) && left <= c.ip.burst
      && 1.0 <= left + c.ip.burst
    requires Enabled(s, step) && CallsAddress(s, step) && s.requests[step.r].addr == ""
    requires KindOf(s, step) == Allow ==> left >= 1.0
    requires flight + (if Counts(After(s, step).requests[step.r], "") then 1 else 0)
                    - (if Counts(s.requests[step.r], "") then 1 else 0) <= k
    ensures t == After(s, step) && Reachable(c, k, t) && JustUsed(t.ip, "", t.now)
    ensures var pays := if KindOf(s, step) in {Allow, Charge} then 1 else 0;
      Standing(c, t, left - pays as real, n,
               flight + (if Counts(t.requests[step.r], "") then 1 else 0)
                      - (if Counts(s.requests[step.r], "") then 1 else 0),
               paid + pays)
  {
    t := After(s, step);
    var r, kind := step.r, KindOf(s, step);
    assert t == Goes(OnAddress(s, "", kind), r, t.requests[r].phase);
    FlightMoves(s, t, "", r, t.requests[r]);
    SameInstant(s.ip, "", kind, s.now);
    ReachesMore(c, k, s, step);
  }

  /** One general request, let through. */
  lemma GeneralStands(c: Config, k: nat, s: State, left: real, n: nat, flight: nat, paid: nat) returns (u: State)
    requires c.ip.Valid() && Reachable(c, k, s) && Standing(c, s, left, n, flight, paid)
    requires 1.0 <= left <= c.ip.burst && flight <= k
    ensures Reachable(c, k, u) && Standing(c, u, left - 1.0, n + 1, flight, paid + 1) && JustUsed(u.ip, "", u.now)
    ensures u.now == s.now && forall lo, hi :: 0 <= lo <= hi <= n && Looking(s, lo, hi) ==> Looking(u, lo, hi)
  {
    var t := ArriveStands(c, k, s, General, left, n, flight, paid);
    u := CallStands(c, k, t, Limit(n), left, n + 1, flight, paid);
  }

  lemma {:induction false} GeneralsStand(c: Config, k: nat, s: State, left: nat, n: nat, flight: nat, paid: nat)
    returns (u: State)
    requires c.ip.Valid() && Reachable(c, k, s) && Standing(c, s, left as real, n, flight, paid)
    requires 0 < left && left as real <= c.ip.burst && flight <= k
    ensures Reachable(c, k, u) && Standing(c, u, 0.0, n + left, flight, paid + left) && JustUsed(u.ip, "", u.now)
    ensures u.now == s.now && forall lo, hi :: 0 <= lo <= hi <= n && Looking(s, lo, hi) ==> Looking(u, lo, hi)
    decreases left
  {
    u := GeneralStands(c, k, s, left as real, n, flight, paid);
    if left > 1 {
      u := GeneralsStand(c, k, u, left - 1, n + 1, flight, paid + 1);
    }
  }

  /** One request let through to authLimited. */
  lemma ReadyStands(c: Config, k: nat, s: State, left: real, n: nat, flight: nat, paid: nat) returns (u: State)
    requires c.ip.Valid() && Reachable(c, k, s) && Standing(c, s, left, n, flight, paid)
    requires 1.0 <= left <= c.ip.burst && flight < k
    ensures Reachable(c, k, u) && Standing(c, u, left, n + 1, flight, paid)
    ensures u.now == s.now && n in u.requests && u.requests[n] == Request("", TokenKeyed, AtAuth)
    ensures forall lo :: 0 <= lo <= n && Looking(s, lo, n) ==> Looking(u, lo, n)
  {
    var t := ArriveStands(c, k, s, TokenKeyed, left, n, flight, paid);
    u := CallStands(c, k, t, Limit(n), left, n + 1, flight, paid);
  }

  /** One request past its check. */
  lemma CheckStands(c: Config, k: nat, s: State, left: real, n: nat, flight: nat, paid: nat) returns (u: State)
    requires c.ip.Valid() && Reachable(c, k, s) && Standing(c, s, left, n, flight, paid)
    requires 1.0 <= left <= c.ip.burst && flight < k
    ensures Reachable(c, k, u) && Standing(c, u, left, n + 1, flight + 1, paid)
    ensures u.now == s.now && forall lo :: 0 <= lo <= n && Looking(s, lo, n) ==> Looking(u, lo, n + 1)
  {
    var t := ReadyStands(c, k, s, left, n, flight, paid);
    u := CallStands(c, k, t, Check(n), left, n + 1, flight, paid);
  }

  lemma {:induction false} ChecksStand(c: Config, k: nat, s: State, left: real, n: nat, flight: nat, paid: nat)
    returns (u: State)
    requires c.ip.Valid() && Reachable(c, k, s) && Standing(c, s, left, n, flight, paid)
    requires 1.0 <= left <= c.ip.burst && flight <= k
    ensures Reachable(c, k, u) && Standing(c, u, left, n + k - flight, k, paid)
    ensures u.now == s.now && forall lo :: 0 <= lo <= n && Looking(s, lo, n) ==> Looking(u, lo, n + k - flight)
    decreases k - flight
  {
    u := s;
    if flight < k {
      u := CheckStands(c, k, s, left, n, flight, paid);
      u := ChecksStand(c, k, u, left, n + 1, flight + 1, paid);
    }
  }

  /** The requests being looked up all fail, and pay. */
  lemma {:induction false} ChargesStand(c: Config, k: nat, s: State, left: real, n: nat, lo: nat, hi: nat, paid: nat)
    returns (u: State)
    requires c.ip.Valid() && Reachable(c, k, s) && Standing(c, s, left, n, hi - lo, paid) && JustUsed(s.ip, "", s.now)
    requires 0 <= hi - lo <= k && Looking(s, lo, hi) && left <= c.ip.burst && (hi - lo) as real <= left + c.ip.burst
    ensures Reachable(c, k, u) && Standing(c, u, left - (hi - lo) as real, n, 0, paid + hi - lo)
    ensures u.now == s.now && JustUsed(u.ip, "", u.now)
    decreases hi - lo
  {
    u := s;
    if lo < hi {
      u := CallStands(c, k, s, AuthFails(lo), left, n, hi - lo, paid);
      u := ChargesStand(c, k, u, left - 1.0, n, lo + 1, hi, paid + 1);
    }
  }

  lemma StartStands(c: Config, k: nat) returns (s: State)
    requires c.ip.Valid()
    ensures s.now == 0 && Reachable(c, k, s) && Standing(c, s, c.ip.burst, 0, 0, 0)
  {
    s := State(0, NewLimiter(c.ip), NewLimiter(c.token), NewLimiter(c.media), map[], map[]);
    assert Flying(s, "") == {};
    assert Sweep(s.ip, 0).buckets == map[];
    assert Gets(c, k, [s], [], s);
  }

  /** Once the idle TTL is over, the bucket is dropped, its debt forgotten. */
  lemma IdleStands(c: Config, k: nat, s: State, left: real, n: nat, flight: nat, paid: nat) returns (u: State)
    requires c.ip.Valid() && Reachable(c, k, s) && Standing(c, s, left, n, flight, paid) && flight <= k
      && JustUsed(s.ip, "", s.now)
    ensures u.now == s.now + IdleTTL(c.ip) + 1 && Reachable(c, k, u) && Standing(c, u, c.ip.burst, n, flight, paid)
  {
    var dt: nat := IdleTTL(c.ip) + 1;
    u := After(s, Tick(dt));
    assert Flying(u, "") == Flying(s, "");
    IdleIsDropped(s.ip, "", s.now);
    ReachesMore(c, k, s, Tick(dt));
  }

  /** Twice: k requests past their check and burst general ones; the first k fail in between. */
  lemma TwiceOver(c: Config, burst: nat, k: nat) returns (u: State)
    requires c.ip.Valid() && c.ip.burst == burst as real && k <= burst
    ensures Reachable(c, k, u) && u.now == IdleTTL(c.ip) + 1 && Flight(u, "") == k && Paid(u, "") == 2 * burst + k
  {
    var s := StartStands(c, k);
    assert Looking(s, 0, 0);
    s := ChecksStand(c, k, s, c.ip.burst, 0, 0, 0);
    assert Looking(s, 0, k);
    s := GeneralsStand(c, k, s, burst, k, k, 0);
    s := ChargesStand(c, k, s, 0.0, k + burst, 0, k, burst);
    u := IdleStands(c, k, s, -(k as real), k + burst, 0, burst + k);
    u := ChecksStand(c, k, u, c.ip.burst, k + burst, 0, burst + k);
    u := GeneralsStand(c, k, u, burst, 2 * k + burst, k, burst + k);
  }

  /** The bound fails for address a somewhere in a run. */
  ghost predicate Overpays(c: Config, trace: seq<State>, steps: seq<Step>, a: Key, k: nat, i: nat, j: nat) {
    Run(c, trace, steps) && i <= j < |trace| && Few(trace, a, k) && !Within(c, trace[i], trace[j], a, k)
  }

  /** The exact condition, with the configuration's whole-number burst: burst + k tokens accrue in a day. */
  lemma PaymentsAreBoundedExactly(c: Config, burst: nat, k: nat)
    requires c.ip.Valid() && c.ip.burst == burst as real && k <= burst
    ensures (burst + k) as real <= Gain(c.ip, DAY + 1) <==>
      forall trace, steps, a, i, j :: !Overpays(c, trace, steps, a, k, i, j)
  {
    if (burst + k) as real <= Gain(c.ip, DAY + 1) {
      forall trace, steps, a, i, j ensures !Overpays(c, trace, steps, a, k, i, j) {
        if Overpays(c, trace, steps, a, k, i, j) {
          PaymentsAreBounded(c, trace, steps, a, k, i, j);
        }
      }
    } else {
      IdleTTLRefills(c.ip, (burst + k) as real);
      var u := TwiceOver(c, burst, k);
      var trace, steps :| Gets(c, k, trace, steps, u);
      assert Overpays(c, trace, steps, "", k, 0, |steps|);
    }
  }
}
