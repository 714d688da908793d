/**
 * The middleware's sequence for one request (internal/api/middleware.go:229-253, 349-407): rateLimit,
 * authLimited, allowCredential and spendCredential over the limiters, each call at its own reading
 * of the clock; that it is a run of that request's steps in Admission; and that the wait a refused
 * client is told is long enough.
 */
module Middleware {
  import opened Basics
  import opened TokenBucket
  import opened RetryAfter
  import opened Admission

  // ------------------------------------------------------- the middleware's sequence

  /** What authenticating found: nothing valid, a credential, or a demo session. */
  datatype Found = Refused | Credential(id: Key) | Demo

  datatype Outcome = Passed | Failed | TooMany(wait: int)

  /** What the clock reads at a sequence's first limiter call, its second, and so on. */
  type Clock = nat -> int

  /** Spending one request of credential id: a refusal charges the address and waits for both. */
  ghost predicate Spends(ip: Limiter, l: Limiter, id: Key, addr: Key, clock: Clock, ip': Limiter, l': Limiter,
                         out: Outcome) {
    var cred, charged := l.Do(id, Allow, clock(0)), ip.Do(addr, Charge, clock(1));
    if l.Says(id, Allow, clock(0)) == Verdict(true) then out == Passed && l' == cred && ip' == ip
    else
      && l' == cred.Do(id, Wait, clock(2)) && ip' == charged.Do(addr, Wait, clock(3))
      && out == TooMany(Max(cred.Says(id, Wait, clock(2)).ns, charged.Says(addr, Wait, clock(3)).ns))
  }

  /** A demo session spends from its address, and pays it for a refusal too. */
  ghost predicate SpendsDemo(ip: Limiter, addr: Key, clock: Clock, ip': Limiter, out: Outcome) {
    var asked := ip.Do(addr, Allow, clock(0));
    if ip.Says(addr, Allow, clock(0)) == Verdict(true) then out == Passed && ip' == asked
    else
      var charged := asked.Do(addr, Charge, clock(1));
      ip' == charged.Do(addr, Wait, clock(2)) && out == TooMany(charged.Says(addr, Wait, clock(2)).ns)
  }

  function From(clock: Clock, n: nat): Clock {
    (i: nat) => clock(i + n)
  }

  /**
   * The sequence of a limited request: refused before its lookup it pays nothing, failed it pays its
   * address, and else it pays its credential, or its address when it is a demo session's.
   */
  ghost predicate Admits(ip: Limiter, l: Limiter, found: Found, addr: Key, clock: Clock, ip': Limiter, l': Limiter,
                         out: Outcome) {
    var asked := ip.Do(addr, Ready, clock(0));
    if ip.Says(addr, Ready, clock(0)) == Verdict(false) then
      out == TooMany(asked.Says(addr, Wait, clock(1)).ns) && l' == l && ip' == asked.Do(addr, Wait, clock(1))
    else
      PaysAs(asked, l, found, addr, From(clock, 1), ip', l', out)
  }

  /** What a request past its check pays, by what authenticating it found. */
  ghost predicate PaysAs(ip: Limiter, l: Limiter, found: Found, addr: Key, clock: Clock, ip': Limiter, l': Limiter,
                        out: Outcome) {
    match found
    case Refused => out == Failed && l' == l && ip' == ip.Do(addr, Charge, clock(0))
    case Demo => l' == l && SpendsDemo(ip, addr, clock, ip', out)
    case Credential(id) => Spends(ip, l, id, addr, clock, ip', l', out)
  }

  /** rateLimit: static files are free, media and per-credential routes only look at the address's
      bucket, every other request pays it; a refusal says how long until it has a token again. */
  method RateLimit(ip: RateLimiter, route: Route, addr: Key, clock: Clock) returns (out: Outcome)
    modifies ip
    ensures route.Static? ==> out == Passed && ip.View() == old(ip.View())
    ensures !route.Static? ==>
      var asks := if route.General? then Allow else Ready;
      var asked := old(ip.View()).Do(addr, asks, clock(0));
      if old(ip.View()).Says(addr, asks, clock(0)) == Verdict(true) then out == Passed && ip.View() == asked
      else out == TooMany(asked.Says(addr, Wait, clock(1)).ns) && ip.View() == asked.Do(addr, Wait, clock(1))
  {
    if route.Static? {
      return Passed;
    }
    var ok: bool;
    if route.Media? || route.TokenKeyed? {
      ok := ip.IsReady(addr, clock(0));
    } else {
      ok := ip.TryAllow(addr, clock(0));
    }
    if !ok {
      var wait := ip.WaitFor(addr, clock(1));
      return TooMany(wait);
    }
    return Passed;
  }

  /** spendCredential. */
  method SpendCredential(ip: RateLimiter, l: RateLimiter, id: Key, addr: Key, clock: Clock)
    returns (wait: int, ok: bool)
    requires ip != l
    modifies ip, l
    ensures var out := if ok then Passed else TooMany(wait);
      Spends(old(ip.View()), old(l.View()), id, addr, clock, ip.View(), l.View(), out)
  {
    ok := l.TryAllow(id, clock(0));
    if ok {
      return 0, true;
    }
    ip.Pay(addr, clock(1));
    var w := l.WaitFor(id, clock(2));
    var v := ip.WaitFor(addr, clock(3));
    wait := Max(w, v);
  }

  /** allowCredential. */
  method AllowCredential(ip: RateLimiter, l: RateLimiter, found: Found, addr: Key, clock: Clock)
    returns (wait: int, ok: bool)
    requires ip != l && !found.Refused?
    modifies ip, l
    ensures found.Demo? ==>
      l.View() == old(l.View())
      && SpendsDemo(old(ip.View()), addr, clock, ip.View(), if ok then Passed else TooMany(wait))
    ensures found.Credential? ==>
      var out := if ok then Passed else TooMany(wait);
      Spends(old(ip.View()), old(l.View()), found.id, addr, clock, ip.View(), l.View(), out)
  {
    if found.Demo? {
      ok := ip.TryAllow(addr, clock(0));
      if ok {
        return 0, true;
      }
      ip.Pay(addr, clock(1));
      wait := ip.WaitFor(addr, clock(2));
    } else {
      wait, ok := SpendCredential(ip, l, found.id, addr, clock);
    }
  }

  /** authLimited; a request its address was already charged for (limited false) is only authenticated. */
  method AuthLimited(ip: RateLimiter, l: RateLimiter, limited: bool, found: Found, addr: Key, clock: Clock)
    returns (out: Outcome)
    requires ip != l
    modifies ip, l
    ensures !limited ==> ip.View() == old(ip.View()) && l.View() == old(l.View())
    ensures !limited ==> out == if found.Refused? then Failed else Passed
    ensures limited ==> Admits(old(ip.View()), old(l.View()), found, addr, clock, ip.View(), l.View(), out)
  {
    if limited {
      var ready := ip.IsReady(addr, clock(0));
      if !ready {
        var wait := ip.WaitFor(addr, clock(1));
        return TooMany(wait);
      }
    }
    if found.Refused? {
      if limited {
        ip.Pay(addr, clock(1));
      }
      return Failed;
    }
    if limited {
      var wait, ok := AllowCredential(ip, l, found, addr, From(clock, 1));
      if !ok {
        return TooMany(wait);
      }
    }
    return Passed;
  }

  // ------------------------------------------------------- it is a run of its request's steps

  /** The request a step is of. */
  ghost predicate StepOf(step: Step, r: nat) {
    !step.Tick? && !step.Arrive? && step.r == r
  }

  /** From s, steps of r alone, at times not going back, lead to u. */
  ghost predicate Alone(s: State, r: nat, moves: seq<(nat, Step)>, u: State)
    decreases |moves|
  {
    if moves == [] then u == s
    else
      var then_ := After(s, Tick(moves[0].0));
      StepOf(moves[0].1, r) && Enabled(then_, moves[0].1) && Alone(After(then_, moves[0].1), r, moves[1..], u)
  }

  ghost predicate Leads(s: State, r: nat, u: State) {
    exists moves :: Alone(s, r, moves, u)
  }

  lemma LeadsHere(s: State, r: nat)
    ensures Leads(s, r, s)
  {
    assert Alone(s, r, [], s);
  }

  /** One step of r at time t, and on from there. */
  lemma LeadsOn(s: State, r: nat, t: int, step: Step, u: State)
    requires s.now <= t && StepOf(step, r) && Enabled(s.(now := t), step)
    requires Leads(After(s.(now := t), step), r, u)
    ensures Leads(s, r, u)
  {
    var dt: nat := t - s.now;
    assert After(s, Tick(dt)) == s.(now := t);
    var moves :| Alone(After(s.(now := t), step), r, moves, u);
    var all := [(dt, step)] + moves;
    assert all[1..] == moves;
    assert Alone(s, r, all, u);
  }

  /** The clock does not go back. */
  ghost predicate Ordered(clock: Clock, from: int) {
    from <= clock(0) && forall i: nat, j: nat :: i <= j ==> clock(i) <= clock(j)
  }

  function PhaseOf(out: Outcome): Phase {
    match out
    case Passed => Served
    case Failed => Unauthorized
    case TooMany(wait) => Limited(wait)
  }

  /** u is s with request r ended as out, and the limiters its route uses moved on. */
  ghost predicate Ended(s: State, r: nat, u: State, ip: Limiter, l: Limiter, out: Outcome)
    requires r in s.requests
  {
    && u.requests == s.requests[r := s.requests[r].(phase := PhaseOf(out))]
    && u.ip == ip && LimiterOf(u, s.requests[r].route) == l
    && (if s.requests[r].route.Media? then u.token == s.token else u.media == s.media)
  }

  lemma TellLeads(s: State, r: nat, t: int, ns: int) returns (u: State)
    requires r in s.requests && s.requests[r].phase == Telling(ns) && s.now <= t
    ensures Leads(s, r, u)
    ensures var addr := s.requests[r].addr;
      Ended(s, r, u, s.ip.Do(addr, Wait, t), LimiterOf(s, s.requests[r].route),
        TooMany(Max(ns, s.ip.Says(addr, Wait, t).ns)))
  {
    u := After(s.(now := t), Tell(r));
    LeadsHere(u, r);
    LeadsOn(s, r, t, Tell(r), u);
  }

  lemma PayDemoLeads(s: State, r: nat, t1: int, t2: int) returns (u: State)
    requires r in s.requests && s.requests[r].phase == Owing(None) && s.now <= t1 <= t2
    ensures Leads(s, r, u)
    ensures var charged := s.ip.Do(s.requests[r].addr, Charge, t1);
      Ended(s, r, u, charged.Do(s.requests[r].addr, Wait, t2), LimiterOf(s, s.requests[r].route),
            TooMany(charged.Says(s.requests[r].addr, Wait, t2).ns))
  {
    var m := After(s.(now := t1), Pay(r));
    u := TellLeads(m, r, t2, 0);
    LeadsOn(s, r, t1, Pay(r), u);
  }

  lemma PayLeads(s: State, r: nat, id: Key, t1: int, t2: int, t3: int) returns (u: State)
    requires r in s.requests && s.requests[r].phase == Owing(Some(id)) && s.now <= t1 <= t2 <= t3
    ensures Leads(s, r, u)
    ensures var charged, l := s.ip.Do(s.requests[r].addr, Charge, t1), LimiterOf(s, s.requests[r].route);
      Ended(s, r, u, charged.Do(s.requests[r].addr, Wait, t3), l.Do(id, Wait, t2),
            TooMany(Max(l.Says(id, Wait, t2).ns, charged.Says(s.requests[r].addr, Wait, t3).ns)))
  {
    var m := After(s.(now := t1), Pay(r));
    var n := After(m.(now := t2), TellCredential(r));
    u := TellLeads(n, r, t3, LimiterOf(s, s.requests[r].route).Says(id, Wait, t2).ns);
    LeadsOn(m, r, t2, TellCredential(r), u);
    LeadsOn(s, r, t1, Pay(r), u);
  }

  lemma SpendServes(s: State, r: nat, id: Key, clock: Clock) returns (u: State)
    requires r in s.requests && s.requests[r].phase == Spending(id) && s.now <= clock(0)
    requires LimiterOf(s, s.requests[r].route).Says(id, Allow, clock(0)) == Verdict(true)
    ensures Leads(s, r, u)
    ensures Ended(s, r, u, s.ip, LimiterOf(s, s.requests[r].route).Do(id, Allow, clock(0)), Passed)
  {
    u := After(s.(now := clock(0)), Spend(r));
    LeadsHere(u, r);
    LeadsOn(s, r, clock(0), Spend(r), u);
  }

  lemma SpendRefuses(s: State, r: nat, id: Key, clock: Clock) returns (u: State)
    requires r in s.requests && s.requests[r].phase == Spending(id) && Ordered(clock, s.now)
    requires LimiterOf(s, s.requests[r].route).Says(id, Allow, clock(0)) != Verdict(true)
    ensures Leads(s, r, u)
    ensures
      var addr, l := s.requests[r].addr, LimiterOf(s, s.requests[r].route).Do(id, Allow, clock(0));
      var charged := s.ip.Do(addr, Charge, clock(1));
      Ended(s, r, u, charged.Do(addr, Wait, clock(3)), l.Do(id, Wait, clock(2)),
            TooMany(Max(l.Says(id, Wait, clock(2)).ns, charged.Says(addr, Wait, clock(3)).ns)))
  {
    var m := After(s.(now := clock(0)), Spend(r));
    u := PayLeads(m, r, id, clock(1), clock(2), clock(3));
    LeadsOn(s, r, clock(0), Spend(r), u);
  }

  lemma SpendLeads(s: State, r: nat, id: Key, clock: Clock) returns (u: State, out: Outcome)
    requires r in s.requests && s.requests[r].phase == Spending(id) && Ordered(clock, s.now)
    ensures Leads(s, r, u) && u.requests == s.requests[r := s.requests[r].(phase := PhaseOf(out))]
    ensures Spends(s.ip, LimiterOf(s, s.requests[r].route), id, s.requests[r].addr, clock, u.ip,
      LimiterOf(u, s.requests[r].route), out)
    ensures if s.requests[r].route.Media? then u.token == s.token else u.media == s.media
  {
    if LimiterOf(s, s.requests[r].route).Says(id, Allow, clock(0)) == Verdict(true) {
      u := SpendServes(s, r, id, clock);
      out := Passed;
    } else {
      u := SpendRefuses(s, r, id, clock);
      out := TooMany(u.requests[r].phase.ns);
    }
  }

  lemma SpendDemoLeads(s: State, r: nat, clock: Clock) returns (u: State, out: Outcome)
    requires r in s.requests && s.requests[r].phase.SpendingDemo? && Ordered(clock, s.now)
    ensures Leads(s, r, u) && u.requests == s.requests[r := s.requests[r].(phase := PhaseOf(out))]
    ensures SpendsDemo(s.ip, s.requests[r].addr, clock, u.ip, out) && u.token == s.token && u.media == s.media
  {
    var m := After(s.(now := clock(0)), Spend(r));
    if m.requests[r].phase.Served? {
      u, out := m, Passed;
      LeadsHere(u, r);
    } else {
      u := PayDemoLeads(m, r, clock(1), clock(2));
      out := TooMany(u.requests[r].phase.ns);
    }
    LeadsOn(s, r, clock(0), Spend(r), u);
  }

  lemma FailLeads(s: State, r: nat, t: int) returns (u: State)
    requires r in s.requests && s.requests[r].phase.Checking? && s.now <= t
    ensures Leads(s, r, u)
    ensures Ended(s, r, u, s.ip.Do(s.requests[r].addr, Charge, t), LimiterOf(s, s.requests[r].route), Failed)
  {
    u := After(s.(now := t), AuthFails(r));
    LeadsHere(u, r);
    LeadsOn(s, r, t, AuthFails(r), u);
  }

  /** What authenticating found takes no time of the limiters'. */
  lemma FoundLeads(s: State, r: nat, step: Step, u: State)
    requires r in s.requests && s.requests[r].phase.Checking? && StepOf(step, r) && (step.AuthOk? || step.AuthDemo?)
    requires Leads(After(s, step), r, u)
    ensures Leads(s, r, u)
  {
    LeadsOn(s, r, s.now, step, u);
  }

  lemma DemoLeads(s: State, r: nat, clock: Clock) returns (u: State, out: Outcome)
    requires r in s.requests && s.requests[r].phase.Checking? && Ordered(clock, s.now)
    ensures Leads(s, r, u) && u.requests == s.requests[r := s.requests[r].(phase := PhaseOf(out))]
    ensures SpendsDemo(s.ip, s.requests[r].addr, clock, u.ip, out) && u.token == s.token && u.media == s.media
  {
    u, out := SpendDemoLeads(After(s, AuthDemo(r)), r, clock);
    FoundLeads(s, r, AuthDemo(r), u);
  }

  lemma CredentialLeads(s: State, r: nat, id: Key, clock: Clock) returns (u: State, out: Outcome)
    requires r in s.requests && s.requests[r].phase.Checking? && Ordered(clock, s.now)
    ensures Leads(s, r, u) && u.requests == s.requests[r := s.requests[r].(phase := PhaseOf(out))]
    ensures Spends(s.ip, LimiterOf(s, s.requests[r].route), id, s.requests[r].addr, clock, u.ip,
      LimiterOf(u, s.requests[r].route), out)
    ensures if s.requests[r].route.Media? then u.token == s.token else u.media == s.media
  {
    u, out := SpendLeads(After(s, AuthOk(r, id)), r, id, clock);
    FoundLeads(s, r, AuthOk(r, id), u);
  }

  /** A request past its check, found to be found. */
  lemma CheckedLeads(s: State, r: nat, found: Found, clock: Clock) returns (u: State, out: Outcome)
    requires r in s.requests && s.requests[r].phase.Checking? && Ordered(clock, s.now)
    ensures Leads(s, r, u) && u.requests == s.requests[r := s.requests[r].(phase := PhaseOf(out))]
    ensures var q, l, l' := s.requests[r], LimiterOf(s, s.requests[r].route), LimiterOf(u, s.requests[r].route);
      && (if q.route.Media? then u.token == s.token else u.media == s.media)
      && PaysAs(s.ip, l, found, q.addr, clock, u.ip, l', out)
  {
    match found
    case Refused =>
      u := FailLeads(s, r, clock(0));
      out := Failed;
    case Demo =>
      u, out := DemoLeads(s, r, clock);
    case Credential(id) =>
      u, out := CredentialLeads(s, r, id, clock);
  }

  lemma CheckPasses(s: State, r: nat, t: int)
    requires r in s.requests && s.requests[r].phase.AtAuth?
    requires s.ip.Says(s.requests[r].addr, Ready, t) == Verdict(true)
    ensures var q := s.requests[r];
      After(s.(now := t), Check(r)) ==
        s.(now := t, ip := s.ip.Do(q.addr, Ready, t), requests := s.requests[r := q.(phase := Checking)])
  {
  }

  /** A request whose address's bucket has a token. */
  lemma ReadyLeads(s: State, r: nat, found: Found, clock: Clock) returns (u: State, out: Outcome)
    requires r in s.requests && s.requests[r].phase.AtAuth? && Ordered(clock, s.now)
    requires s.ip.Says(s.requests[r].addr, Ready, clock(0)) == Verdict(true)
    ensures Leads(s, r, u) && u.requests == s.requests[r := s.requests[r].(phase := PhaseOf(out))]
    ensures var q := s.requests[r];
      && Admits(s.ip, LimiterOf(s, q.route), found, q.addr, clock, u.ip, LimiterOf(u, q.route), out)
      && (if q.route.Media? then u.token == s.token else u.media == s.media)
  {
    var q, t := s.requests[r], clock(0);
    var m := s.(now := t, ip := s.ip.Do(q.addr, Ready, t), requests := s.requests[r := q.(phase := Checking)]);
    CheckPasses(s, r, t);
    u, out := CheckedLeads(m, r, found, From(clock, 1));
    LeadsOn(s, r, t, Check(r), u);
  }

  /** A request whose address's bucket has none. */
  lemma EmptyLeads(s: State, r: nat, clock: Clock) returns (u: State, out: Outcome)
    requires r in s.requests && s.requests[r].phase.AtAuth? && Ordered(clock, s.now)
    requires s.ip.Says(s.requests[r].addr, Ready, clock(0)) != Verdict(true)
    ensures Leads(s, r, u) && u.requests == s.requests[r := s.requests[r].(phase := PhaseOf(out))]
    ensures var asked := s.ip.Do(s.requests[r].addr, Ready, clock(0));
      && out == TooMany(asked.Says(s.requests[r].addr, Wait, clock(1)).ns)
      && u.ip == asked.Do(s.requests[r].addr, Wait, clock(1)) && u.token == s.token && u.media == s.media
  {
    var m := After(s.(now := clock(0)), Check(r));
    u := TellLeads(m, r, clock(1), 0);
    out := TooMany(u.requests[r].phase.ns);
    LeadsOn(s, r, clock(0), Check(r), u);
  }

  /**
   * The two models of the middleware agree: from any state with a request at authLimited, its steps
   * alone lead to a state whose limiters, and whose answer, are those of AuthLimited.
   */
  lemma AuthLimitedIsARun(s: State, r: nat, found: Found, clock: Clock) returns (u: State, out: Outcome)
    requires r in s.requests && s.requests[r].phase.AtAuth? && Ordered(clock, s.now)
    ensures Leads(s, r, u) && u.requests == s.requests[r := s.requests[r].(phase := PhaseOf(out))]
    ensures var q := s.requests[r];
      && Admits(s.ip, LimiterOf(s, q.route), found, q.addr, clock, u.ip, LimiterOf(u, q.route), out)
      && (if q.route.Media? then u.token == s.token else u.media == s.media)
  {
    if s.ip.Says(s.requests[r].addr, Ready, clock(0)) == Verdict(true) {
      u, out := ReadyLeads(s, r, found, clock);
    } else {
      u, out := EmptyLeads(s, r, clock);
    }
  }

  // ------------------------------------------------------- a refused client comes back

  /** A Ready and an Allow find the same token. */
  lemma AllowIsReady(p: Limits, events: seq<Event>, key: Key, t: int)
    ensures Given(p, events, Event(key, Allow, t)) == Given(p, events, Event(key, Ready, t))
  {
  }

  /** A client told a wait under a day's cap, or none, is ready once it is over. */
  lemma ReadyAfterWait(p: Limits, events: seq<Event>, key: Key, now: int, others: seq<Event>, t: int, start: int)
    requires p.Valid() && Sequel(events, Event(key, Wait, now), others, t, start)
    requires Quoted(p, events, key, now) < DAY && t > now + Quoted(p, events, key, now)
    ensures ReadyLater(p, events, Event(key, Wait, now), others, t)
  {
    var b := LimiterAfter(p, events).Sees(key, now);
    if b.tokens < 1.0 {
      WaitIsHonest(p, events, key, now, others, t, start);
    } else {
      LeftBounds(p, events, Event(key, Wait, now), start);
      RefillBounds(p, b, t);
      ReadyLaterIs(p, events, Event(key, Wait, now), others, t, start);
    }
  }

  lemma OneMoreInOrder(events: seq<Event>, call: Event, start: int)
    requires InOrder(events, start) && EndOf(events, start) <= call.now
    ensures InOrder(events + [call], start) && EndOf(events + [call], start) == call.now
  {
  }

  /** After the run and one more call on key, a Wait that is answered with less than a day is true. */
  lemma {:induction false} WaitAfterCall(p: Limits, events: seq<Event>, call: Event, told: int, others: seq<Event>,
                                         t: int, start: int)
    requires p.Valid() && InOrder(events, start) && EndOf(events, start) <= call.now <= told <= t
      && Others(others, call.key, told, t)
    requires var wait := LimiterAfter(p, events).Do(call.key, call.kind, call.now).Says(call.key, Wait, told).ns;
      wait < DAY && t > told + wait
    ensures var l := Later(LimiterAfter(p, events).Do(call.key, call.kind, call.now).Do(call.key, Wait, told), others);
      l.Says(call.key, Ready, t) == Verdict(true) && l.Says(call.key, Allow, t) == Verdict(true)
  {
    var all, wait := events + [call], Event(call.key, Wait, told);
    Append(p, events, call);
    OneMoreInOrder(events, call, start);
    LimiterSound(p, all, start);
    ReadyAfterWait(p, all, call.key, told, others, t, start);
    LaterIs(p, all, wait, others);
    AllowIsReady(p, all + [wait] + others, call.key, t);
  }

  /**
   * Main result: after any calls of the two limiters, a client that spendCredential refuses, and
   * that waits for longer than the wait it answers, passes both its address's check and its
   * credential's bucket, with no other traffic on the two and the wait under the day's cap.
   */
  lemma {:induction false} RefusedClientPasses(p: Limits, q: Limits, ipEvents: seq<Event>, credEvents: seq<Event>,
                                               id: Key, addr: Key, clock: Clock, ip': Limiter, l': Limiter,
                                               wait: int, ipOthers: seq<Event>, credOthers: seq<Event>, t: int,
                                               start: int)
    requires p.Valid() && q.Valid() && InOrder(ipEvents, start) && InOrder(credEvents, start)
    requires EndOf(ipEvents, start) <= clock(0) && EndOf(credEvents, start) <= clock(0) && Ordered(clock, clock(0))
    requires Spends(LimiterAfter(p, ipEvents), LimiterAfter(q, credEvents), id, addr, clock, ip', l', TooMany(wait))
    requires wait < DAY && t > clock(3) + wait
    requires Others(ipOthers, addr, clock(3), t) && Others(credOthers, id, clock(2), t)
    ensures Later(ip', ipOthers).Says(addr, Ready, t) == Verdict(true)
    ensures Later(l', credOthers).Says(id, Allow, t) == Verdict(true)
  {
    assert clock(0) <= clock(1) <= clock(3) && clock(0) <= clock(2) <= clock(3);
    WaitAfterCall(p, ipEvents, Event(addr, Charge, clock(1)), clock(3), ipOthers, t, start);
    WaitAfterCall(q, credEvents, Event(id, Allow, clock(0)), clock(2), credOthers, t, start);
  }

  /** After the run and one more call on key, nothing is ready before the wait told is over. */
  lemma {:induction false} EarlyAfterCall(p: Limits, events: seq<Event>, call: Event, told: int,
                                          others: seq<Event>, t: int, start: int)
    requires p.Valid() && InOrder(events, start) && EndOf(events, start) <= call.now <= told <= t
    requires Others(others, call.key, told, t)
    requires t < told + LimiterAfter(p, events).Do(call.key, call.kind, call.now).Says(call.key, Wait, told).ns
    ensures var l := Later(LimiterAfter(p, events).Do(call.key, call.kind, call.now).Do(call.key, Wait, told), others);
      l.Says(call.key, Ready, t) == Verdict(false) && l.Says(call.key, Allow, t) == Verdict(false)
  {
    var all, wait := events + [call], Event(call.key, Wait, told);
    Append(p, events, call);
    OneMoreInOrder(events, call, start);
    LimiterSound(p, all, start);
    NotReadyBeforeWait(p, all, call.key, told, others, t, start);
    LaterIs(p, all, wait, others);
    AllowIsReady(p, all + [wait] + others, call.key, t);
  }

  /**
   * And the wait is no longer than it must be: after any calls of the two limiters, a client that
   * comes back before the wait spendCredential answered is over, counted from when its
   * credential's was read, is refused again, by its address's check or its credential's bucket.
   */
  lemma {:induction false} EarlyClientIsRefused(p: Limits, q: Limits, ipEvents: seq<Event>, credEvents: seq<Event>,
                                                id: Key, addr: Key, clock: Clock, ip': Limiter, l': Limiter,
                                                wait: int, ipOthers: seq<Event>, credOthers: seq<Event>, t: int,
                                                start: int)
    requires p.Valid() && q.Valid() && InOrder(ipEvents, start) && InOrder(credEvents, start)
    requires EndOf(ipEvents, start) <= clock(0) && EndOf(credEvents, start) <= clock(0) && Ordered(clock, clock(0))
    requires Spends(LimiterAfter(p, ipEvents), LimiterAfter(q, credEvents), id, addr, clock, ip', l', TooMany(wait))
    requires clock(3) <= t < clock(2) + wait
    requires Others(ipOthers, addr, clock(3), t) && Others(credOthers, id, clock(2), t)
    ensures Later(ip', ipOthers).Says(addr, Ready, t) == Verdict(false)
         || Later(l', credOthers).Says(id, Allow, t) == Verdict(false)
  {
    assert clock(0) <= clock(1) <= clock(3) && clock(0) <= clock(2) <= clock(3);
    var charged := LimiterAfter(p, ipEvents).Do(addr, Charge, clock(1));
    if wait == charged.Says(addr, Wait, clock(3)).ns {
      EarlyAfterCall(p, ipEvents, Event(addr, Charge, clock(1)), clock(3), ipOthers, t, start);
    } else {
      EarlyAfterCall(q, credEvents, Event(id, Allow, clock(0)), clock(2), credOthers, t, start);
    }
  }

  lemma {:induction false} LaterIs(p: Limits, events: seq<Event>, call: Event, others: seq<Event>)
    ensures LimiterAfter(p, events + [call] + others) ==
      Later(LimiterAfter(p, events).Do(call.key, call.kind, call.now), others)
  {
    Append(p, events, call);
    LaterAfter(p, events + [call], others);
  }
}
