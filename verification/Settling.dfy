/**
 * Every token lookup is paid for, once (internal/api/middleware.go:375-407): what each request's
 * address and credential paid over a whole run of Admission, told from the run alone.
 */
module Settling {
  import opened Basics
  import opened TokenBucket
  import opened Admission

  /** What a run did for one request: whether its token was looked up, how often its address paid, and
      how often its credential. */
  datatype Account = Account(looked: bool, charged: nat, spent: nat)

  /** The request a step is of. */
  predicate StepOf(step: Step, r: nat) {
    !step.Tick? && !step.Arrive? && step.r == r
  }

  /** In this step of r its address pays. */
  ghost predicate Charges(s: State, step: Step, r: nat)
    requires Enabled(s, step) && r in s.requests
  {
    StepOf(step, r) && Admission.Paid(After(s, step), s.requests[r].addr) == Admission.Paid(s, s.requests[r].addr) + 1
  }

  /** In this step of r its credential's bucket lets it through. */
  ghost predicate Spends(s: State, step: Step, r: nat)
    requires Enabled(s, step) && r in s.requests
  {
    && step == Spend(r) && s.requests[r].phase.Spending?
    && LimiterOf(s, s.requests[r].route).Says(s.requests[r].phase.id, Allow, s.now) == Verdict(true)
  }

  /** In this step r passes its check, and its token is looked up. */
  ghost predicate LooksUp(s: State, step: Step, r: nat)
    requires Enabled(s, step) && r in s.requests
  {
    step == Check(r) && s.ip.Says(s.requests[r].addr, Ready, s.now) == Verdict(true)
  }

  ghost function Booked(a: Account, s: State, step: Step, r: nat): Account
    requires Enabled(s, step) && r in s.requests
  {
    Account(a.looked || LooksUp(s, step, r),
            a.charged + (if Charges(s, step, r) then 1 else 0),
            a.spent + (if Spends(s, step, r) then 1 else 0))
  }

  /** r's account by trace[i]. */
  ghost function AccountOf(c: Config, trace: seq<State>, steps: seq<Step>, r: nat, i: nat): Account
    requires Run(c, trace, steps) && i < |trace|
  {
    if i == 0 || r !in trace[i - 1].requests then Account(false, 0, 0)
    else Booked(AccountOf(c, trace, steps, r, i - 1), trace[i - 1], steps[i - 1], r)
  }

  /** What a request's phase says of its account. */
  predicate Settled(q: Request, a: Account) {
    match q.phase
    case Arrived => a == Account(false, 0, 0)
    case AtAuth => a == Account(false, 0, 0)
    case Checking => a == Account(true, 0, 0)
    case Spending(_) => a == Account(true, 0, 0)
    case SpendingDemo => a == Account(true, 0, 0)
    case Owing(_) => a == Account(true, 0, 0)
    case Told(_) => a == Account(true, 1, 0)
    case Telling(_) => a == Account(true, 1, 0) || a == Account(false, 0, 0)
    case Limited(_) => a == Account(true, 1, 0) || a == Account(false, 0, 0)
    case Unauthorized => a == Account(true, 1, 0)
    case Served =>
      match q.route
      case Static => a == Account(false, 0, 0)
      case General => a == Account(false, 1, 0)
      case _ => a == Account(true, 1, 0) || a == Account(true, 0, 1)
  }

  /** Requests past the first look of a media or per-credential route are of one. */
  predicate Routed(q: Request) {
    q.phase.AtAuth? || q.InFlight() || q.phase.Told? ==> q.route.Media? || q.route.TokenKeyed?
  }

  lemma OthersStand(s: State, step: Step, r: nat, a: Account)
    requires Enabled(s, step) && r in s.requests && !StepOf(step, r)
    ensures r in After(s, step).requests && After(s, step).requests[r] == s.requests[r]
    ensures Booked(a, s, step, r) == a
  {
  }

  /** How a call on an address's bucket is paid. */
  lemma CallCharges(s: State, addr: Key, kind: Kind)
    ensures var pays := kind == Charge || (kind == Allow && s.ip.Says(addr, Allow, s.now) == Verdict(true));
      Admission.Paid(OnAddress(s, addr, kind), addr) == Admission.Paid(s, addr) + if pays then 1 else 0
    ensures Has(s, addr) <==> s.ip.Says(addr, Allow, s.now) == Verdict(true)
    ensures Has(s, addr) <==> s.ip.Says(addr, Ready, s.now) == Verdict(true)
  {
  }

  lemma LimitSettles(s: State, r: nat, a: Account)
    requires Enabled(s, Limit(r)) && Settled(s.requests[r], a)
    ensures var q := After(s, Limit(r)).requests[r]; Settled(q, Booked(a, s, Limit(r), r)) && Routed(q)
  {
    CallCharges(s, s.requests[r].addr, if s.requests[r].route.General? then Allow else Ready);
  }

  lemma CheckSettles(s: State, r: nat, a: Account)
    requires Enabled(s, Check(r)) && Settled(s.requests[r], a) && Routed(s.requests[r])
    ensures var q := After(s, Check(r)).requests[r]; Settled(q, Booked(a, s, Check(r), r)) && Routed(q)
  {
    CallCharges(s, s.requests[r].addr, Ready);
  }

  lemma FailSettles(s: State, r: nat, a: Account)
    requires Enabled(s, AuthFails(r)) && Settled(s.requests[r], a)
    ensures var q := After(s, AuthFails(r)).requests[r]; Settled(q, Booked(a, s, AuthFails(r), r)) && Routed(q)
  {
    CallCharges(s, s.requests[r].addr, Charge);
  }

  lemma SpendSettles(s: State, r: nat, a: Account)
    requires Enabled(s, Spend(r)) && Settled(s.requests[r], a) && Routed(s.requests[r])
    ensures var q := After(s, Spend(r)).requests[r]; Settled(q, Booked(a, s, Spend(r), r)) && Routed(q)
  {
    CallCharges(s, s.requests[r].addr, Allow);
  }

  lemma PaySettles(s: State, r: nat, a: Account)
    requires Enabled(s, Pay(r)) && Settled(s.requests[r], a) && Routed(s.requests[r])
    ensures var q := After(s, Pay(r)).requests[r]; Settled(q, Booked(a, s, Pay(r), r)) && Routed(q)
  {
    CallCharges(s, s.requests[r].addr, Charge);
  }

  lemma TellSettles(s: State, r: nat, a: Account)
    requires Enabled(s, Tell(r)) && Settled(s.requests[r], a)
    ensures var q := After(s, Tell(r)).requests[r]; Settled(q, Booked(a, s, Tell(r), r)) && Routed(q)
  {
    CallCharges(s, s.requests[r].addr, Wait);
  }

  /** Finding out who it is, or telling a credential's wait, touches no address. */
  lemma QuietSettles(s: State, step: Step, r: nat, a: Account)
    requires step == AuthDemo(r) || step.AuthOk? || step == TellCredential(r)
    requires StepOf(step, r) && Enabled(s, step) && Settled(s.requests[r], a) && Routed(s.requests[r])
    ensures var q := After(s, step).requests[r]; Settled(q, Booked(a, s, step, r)) && Routed(q)
  {
  }

  lemma StepSettles(s: State, step: Step, r: nat, a: Account)
    requires Enabled(s, step) && r in s.requests && Settled(s.requests[r], a) && Routed(s.requests[r])
    ensures r in After(s, step).requests
    ensures var q := After(s, step).requests[r]; Settled(q, Booked(a, s, step, r)) && Routed(q)
  {
    if !StepOf(step, r) {
      OthersStand(s, step, r, a);
    } else {
      match step
      case Limit(_) => LimitSettles(s, r, a);
      case Check(_) => CheckSettles(s, r, a);
      case AuthFails(_) => FailSettles(s, r, a);
      case Spend(_) => SpendSettles(s, r, a);
      case Pay(_) => PaySettles(s, r, a);
      case Tell(_) => TellSettles(s, r, a);
      case _ => QuietSettles(s, step, r, a);
    }
  }

  lemma NewRequest(s: State, step: Step, r: nat)
    requires Enabled(s, step) && r !in s.requests && r in After(s, step).requests
    ensures After(s, step).requests[r].phase == Arrived
  {
  }

  lemma {:induction false} RunSettles(c: Config, trace: seq<State>, steps: seq<Step>, r: nat, i: nat)
    requires Run(c, trace, steps) && i < |trace| && r in trace[i].requests
    ensures Settled(trace[i].requests[r], AccountOf(c, trace, steps, r, i)) && Routed(trace[i].requests[r])
  {
    if i > 0 {
      assert Enabled(trace[i - 1], steps[i - 1]) && trace[i] == After(trace[i - 1], steps[i - 1]);
      if r in trace[i - 1].requests {
        RunSettles(c, trace, steps, r, i - 1);
        StepSettles(trace[i - 1], steps[i - 1], r, AccountOf(c, trace, steps, r, i - 1));
      } else {
        NewRequest(trace[i - 1], steps[i - 1], r);
      }
    }
  }

  predicate IsOver(q: Request) {
    q.phase.Served? || q.phase.Unauthorized? || q.phase.Limited?
  }

  /**
   * Main result: in every run, a request whose token was looked up and that is over was paid for
   * exactly once, by its credential when that let it through, else by its address; one over without
   * a lookup cost nothing, but for the one payment of a general request let through.
   */
  lemma {:induction false} LookupsArePaidForOnce(c: Config, trace: seq<State>, steps: seq<Step>, r: nat, i: nat)
    requires Run(c, trace, steps) && i < |trace| && r in trace[i].requests && IsOver(trace[i].requests[r])
    ensures var q, a := trace[i].requests[r], AccountOf(c, trace, steps, r, i);
      && (a.looked ==> a.charged + a.spent == 1 && (a.spent == 1 ==> q.phase.Served?))
      && (!a.looked ==> a.spent == 0 && a.charged == if q.route.General? && q.phase.Served? then 1 else 0)
      && (q.phase.Unauthorized? ==> a.looked && a.charged == 1)
      && (q.phase.Served? && (q.route.Media? || q.route.TokenKeyed?) ==> a.looked)
  {
    RunSettles(c, trace, steps, r, i);
  }

  /** An address pays in no step but those of its own requests. */
  lemma OnlyItsRequestsPay(s: State, step: Step, addr: Key)
    requires Enabled(s, step) && Admission.Paid(After(s, step), addr) != Admission.Paid(s, addr)
    ensures !step.Tick? && !step.Arrive? && step.r in s.requests && s.requests[step.r].addr == addr
    ensures Charges(s, step, step.r)
  {
  }
}
