/**
 * The broadcast of internal/bridge/signal.go and the waiter protocol it relies on
 * (internal/bridge/jobs.go:1281-1302): a waiter takes the channel, then looks at the queue,
 * and only then blocks; a producer queues a job or raises its priority, and only then fires.
 */
module WakeUps {
  import opened Basics

  // ---------------------------------------------------------- the server's objects

  /** A Go channel used only to be closed; id is its place among the signal's channels. */
  class Channel {
    ghost const id: nat
    var closed: bool

    constructor (ghost id: nat)
      ensures !closed && this.id == id
    {
      this.id := id;
      closed := false;
    }

    /** close(ch), which panics on a closed channel. */
    method Close()
      requires !closed
      modifies this
      ensures closed
    {
      closed := true;
    }
  }

  class Signal {
    var ch: Channel
    ghost var past: seq<Channel>  // every channel it had before

    ghost predicate Valid()
      reads this, ch, past
    {
      && !ch.closed && ch.id == |past|
      && forall i :: 0 <= i < |past| ==> past[i].closed && past[i].id == i
    }

    constructor ()
      ensures Valid() && past == [] && fresh(ch)
    {
      ch := new Channel(0);
      past := [];
    }

    /** The channel the next fire closes. */
    method Wait() returns (c: Channel)
      requires Valid()
      ensures c == ch && !c.closed
    {
      c := ch;
    }

    /** Close the current channel, never one closed already, and put a new one in its place. */
    method Fire()
      requires Valid()
      modifies this, ch
      ensures Valid() && past == old(past) + [old(ch)]
      ensures old(ch).closed && fresh(ch)
    {
      past := past + [ch];
      ch.Close();
      ch := new Channel(|past|);
    }
  }

  // ------------------------------------------------------------- the protocol's runs

  /** What a waiter is doing; it holds the channel with that id. */
  datatype Waiter =
    | Idle
    | Took(ch: nat)     // has the channel, has not looked yet
    | Looked(ch: nat)   // saw nothing for it in the queue
    | Blocked(ch: nat)
    | Claimed(job: nat)
    | GaveUp            // its timer or its request ended

  /** A queued job. A held one waits for a module that is off. */
  datatype Job = Job(kind: nat, priority: int, held: bool)

  /** What a waiter asks for: kinds of jobs, and maybe a least priority. */
  datatype Wanted = Wanted(kinds: set<nat>, atLeast: Option<int>)

  /** current is the id of the signal's channel: every channel before it is closed, and it is open. */
  datatype State = State(current: nat, queue: map<nat, Job>, waiters: map<nat, Waiter>, wanted: map<nat, Wanted>)

  /** Whether waiter w may claim job j. */
  predicate Fits(s: State, w: nat, j: nat) {
    && w in s.wanted && j in s.queue && !s.queue[j].held
    && s.queue[j].kind in s.wanted[w].kinds
    && (s.wanted[w].atLeast.Some? ==> s.queue[j].priority >= s.wanted[w].atLeast.value)
  }

  datatype Step =
    | Enqueue(j: nat, job: Job)        // new, or requeued when its lease ran out
    | Promote(j: nat, priority: int)
    | Fire(j: nat)                     // the fire that follows either
    | FireOther                        // any other fire
    | Withdraw(j: nat)                 // cancelled, moved away or expired
    | Hold(j: nat)                     // its module is turned off
    | Release(j: nat)                  // and on again, with no fire of its own
    | Take(w: nat)
    | Look(w: nat, j: nat)             // claims j, or nothing when nothing fits
    | Block(w: nat)
    | Wake(w: nat)                     // its channel is closed: round the loop again
    | Leave(w: nat)

  ghost predicate Init(s: State) {
    s.current == 0 && s.queue == map[] && forall w <- s.waiters :: s.waiters[w].Idle?
  }

  ghost predicate Enabled(s: State, step: Step) {
    match step
    case Enqueue(j, _) => j !in s.queue
    case Promote(j, priority) => j in s.queue && priority > s.queue[j].priority
    case Fire(_) => true
    case FireOther => true
    case Withdraw(j) => j in s.queue
    case Hold(j) => j in s.queue && !s.queue[j].held
    case Release(j) => j in s.queue && s.queue[j].held
    case Take(w) => w in s.waiters && s.waiters[w].Idle?
    case Look(w, j) => w in s.waiters && s.waiters[w].Took? && (Fits(s, w, j) || forall k :: !Fits(s, w, k))
    case Block(w) => w in s.waiters && s.waiters[w].Looked?
    case Wake(w) => w in s.waiters && s.waiters[w].Blocked? && s.waiters[w].ch < s.current
    case Leave(w) => w in s.waiters && s.waiters[w].Blocked?
  }

  ghost function After(s: State, step: Step): State
    requires Enabled(s, step)
  {
    match step
    case Enqueue(j, job) => s.(queue := s.queue[j := job])
    case Promote(j, priority) => s.(queue := s.queue[j := s.queue[j].(priority := priority)])
    case Fire(_) => s.(current := s.current + 1)
    case FireOther => s.(current := s.current + 1)
    case Withdraw(j) => s.(queue := s.queue - {j})
    case Hold(j) => s.(queue := s.queue[j := s.queue[j].(held := true)])
    case Release(j) => s.(queue := s.queue[j := s.queue[j].(held := false)])
    case Take(w) => s.(waiters := s.waiters[w := Took(s.current)])
    case Look(w, j) =>
      if Fits(s, w, j) then s.(queue := s.queue - {j}, waiters := s.waiters[w := Claimed(j)])
      else s.(waiters := s.waiters[w := Looked(s.waiters[w].ch)])
    case Block(w) => s.(waiters := s.waiters[w := Blocked(s.waiters[w].ch)])
    case Wake(w) => s.(waiters := s.waiters[w := Idle])
    case Leave(w) => s.(waiters := s.waiters[w := GaveUp])
  }

  ghost predicate Run(trace: seq<State>, steps: seq<Step>) {
    && |trace| == |steps| + 1 && Init(trace[0])
    && forall i :: 0 <= i < |steps| ==> Enabled(trace[i], steps[i]) && trace[i + 1] == After(trace[i], steps[i])
  }

  // ------------------------------------------------------------------- what a run has done

  /** The steps a producer fires after. */
  predicate Raises(step: Step, j: nat) {
    (step.Enqueue? || step.Promote?) && step.j == j
  }

  /** By trace[i], a fire has followed the last time j was queued or promoted. */
  ghost predicate Told(steps: seq<Step>, i: nat, j: nat)
    requires i <= |steps|
  {
    exists k :: 0 <= k < i && steps[k] == Fire(j) && forall l :: k < l < i ==> !Raises(steps[l], j)
  }

  /** By trace[i], j's module was turned on again after waiter w last looked. */
  ghost predicate ReleasedSince(steps: seq<Step>, i: nat, w: nat, j: nat)
    requires i <= |steps|
  {
    exists k :: 0 <= k < i && steps[k] == Release(j) && forall l :: k < l < i ==> !(steps[l].Look? && steps[l].w == w)
  }

  lemma ToldBefore(steps: seq<Step>, i: nat, j: nat)
    requires i < |steps| && Told(steps, i + 1, j)
    ensures !Raises(steps[i], j)
    ensures steps[i] == Fire(j) || Told(steps, i, j)
  {
    var k :| 0 <= k < i + 1 && steps[k] == Fire(j) && forall l :: k < l < i + 1 ==> !Raises(steps[l], j);
    assert k < i ==> !Raises(steps[i], j);
  }

  lemma ReleasedStill(steps: seq<Step>, i: nat, w: nat, j: nat)
    requires i < |steps| && !(steps[i].Look? && steps[i].w == w)
    ensures ReleasedSince(steps, i, w, j) || steps[i] == Release(j) ==> ReleasedSince(steps, i + 1, w, j)
  {
    if ReleasedSince(steps, i, w, j) {
      var k :| 0 <= k < i && steps[k] == Release(j) && forall l :: k < l < i ==> !(steps[l].Look? && steps[l].w == w);
      assert forall l :: k < l < i + 1 ==> !(steps[l].Look? && steps[l].w == w);
    }
  }

  /** A waiter past its look holds a closed channel as soon as a job for it was fired for, unless the
      job was released since. */
  ghost predicate WaiterInv(s: State, steps: seq<Step>, i: nat, w: nat)
    requires w in s.waiters && i <= |steps|
  {
    var x := s.waiters[w];
    && (x.Took? || x.Looked? || x.Blocked? ==> x.ch <= s.current)
    && (x.Looked? || x.Blocked? ==>
          forall j :: Fits(s, w, j) && Told(steps, i, j) ==> x.ch < s.current || ReleasedSince(steps, i, w, j))
  }

  ghost predicate Inv(s: State, steps: seq<Step>, i: nat)
    requires i <= |steps|
  {
    forall w <- s.waiters :: WaiterInv(s, steps, i, w)
  }

  /** One step, for one waiter past its look and one job. */
  lemma JobKept(s: State, steps: seq<Step>, i: nat, w: nat, j: nat)
    requires i < |steps| && Enabled(s, steps[i]) && w in s.waiters && WaiterInv(s, steps, i, w)
    requires var t := After(s, steps[i]);
      (t.waiters[w].Looked? || t.waiters[w].Blocked?) && Fits(t, w, j) && Told(steps, i + 1, j)
    ensures var t := After(s, steps[i]); t.waiters[w].ch < t.current || ReleasedSince(steps, i + 1, w, j)
  {
    var step := steps[i];
    ToldBefore(steps, i, j);
    assert step == Release(j) || Fits(s, w, j);
    if !step.Fire? && !step.FireOther? && !(step.Look? && step.w == w) {
      ReleasedStill(steps, i, w, j);
    }
  }

  lemma StepKeeps(s: State, steps: seq<Step>, i: nat)
    requires i < |steps| && Inv(s, steps, i) && Enabled(s, steps[i])
    ensures Inv(After(s, steps[i]), steps, i + 1)
  {
    var t := After(s, steps[i]);
    forall w <- t.waiters ensures WaiterInv(t, steps, i + 1, w) {
      assert WaiterInv(s, steps, i, w);
      forall j | (t.waiters[w].Looked? || t.waiters[w].Blocked?) && Fits(t, w, j) && Told(steps, i + 1, j)
        ensures t.waiters[w].ch < t.current || ReleasedSince(steps, i + 1, w, j)
      {
        JobKept(s, steps, i, w, j);
      }
    }
  }

  lemma {:induction false} RunKeeps(trace: seq<State>, steps: seq<Step>, i: nat)
    requires Run(trace, steps) && i < |trace|
    ensures Inv(trace[i], steps, i)
  {
    if i > 0 {
      RunKeeps(trace, steps, i - 1);
      StepKeeps(trace[i - 1], steps, i - 1);
    }
  }

  // --------------------------------------------------------------------------- main results

  /** Waiter w is blocked on the open channel beside a queued job it could claim, whose fire has completed. */
  ghost predicate Sleeps(trace: seq<State>, steps: seq<Step>, i: nat, w: nat, j: nat) {
    && Run(trace, steps) && i < |trace|
    && w in trace[i].waiters && trace[i].waiters[w] == Blocked(trace[i].current)
    && Fits(trace[i], w, j) && Told(steps, i, j)
  }

  /**
   * Main result: no waiter of any run sleeps beside work, whatever is cancelled, moved, promoted or
   * held meanwhile, unless the job's module was turned on again after the waiter last looked.
   */
  lemma NoMissedWork(trace: seq<State>, steps: seq<Step>, i: nat, w: nat, j: nat)
    requires Run(trace, steps) && i < |trace|
    requires w in trace[i].waiters && trace[i].waiters[w].Blocked?
    requires Fits(trace[i], w, j) && Told(steps, i, j)
    ensures ReleasedSince(steps, i, w, j) || Enabled(trace[i], Wake(w))
    ensures Sleeps(trace, steps, i, w, j) ==> ReleasedSince(steps, i, w, j)
  {
    RunKeeps(trace, steps, i);
    assert WaiterInv(trace[i], steps, i, w);
  }

  /** No held job's module is turned on again. */
  predicate NoneReleased(steps: seq<Step>) {
    forall k :: 0 <= k < |steps| ==> !steps[k].Release?
  }

  /** One waiter, and a job of its kind that is held. */
  function Start(): State {
    State(0, map[], map[0 := Idle], map[0 := Wanted({0}, None)])
  }

  /** A run in which a job is held while its fire comes and released after the waiter has looked. */
  function HeldRun(): seq<Step> {
    [Enqueue(0, Job(0, 0, true)), Fire(0), Take(0), Look(0, 0), Block(0), Release(0)]
  }

  function HeldTrace(): seq<State> {
    var queued := Start().(queue := map[0 := Job(0, 0, true)]);
    var fired := queued.(current := 1);
    var blocked := fired.(waiters := map[0 := Blocked(1)]);
    [Start(), queued, fired, fired.(waiters := map[0 := Took(1)]), fired.(waiters := map[0 := Looked(1)]),
     blocked, blocked.(queue := map[0 := Job(0, 0, false)])]
  }

  lemma HeldRunIsARun()
    ensures Run(HeldTrace(), HeldRun())
  {
    var trace, steps := HeldTrace(), HeldRun();
    forall i | 0 <= i < |steps| ensures Enabled(trace[i], steps[i]) && trace[i + 1] == After(trace[i], steps[i]) {
    }
  }

  lemma HeldJobIsTold()
    ensures Told(HeldRun(), 6, 0)
  {
    assert HeldRun()[1] == Fire(0) && forall l :: 1 < l < 6 ==> !Raises(HeldRun()[l], 0);
  }

  /**
   * The one thing that comes to fit with no fire of its own is a job whose module is turned on
   * again: a waiter blocked by then stays blocked beside it until another fire or its timer.
   */
  lemma ReleasedJobWaits()
    ensures Sleeps(HeldTrace(), HeldRun(), 6, 0, 0)
  {
    HeldRunIsARun();
    HeldJobIsTold();
  }

  /** The exact condition: waiters never sleep beside work, in all runs whose held jobs may or may not
      be released, if and only if they may not. */
  lemma NoMissedWorkExactly(releases: bool)
    ensures !releases <==>
      forall trace, steps, i, w, j :: releases || NoneReleased(steps) ==> !Sleeps(trace, steps, i, w, j)
  {
    if releases {
      ReleasedJobWaits();
    } else {
      forall trace, steps, i, w, j | NoneReleased(steps) ensures !Sleeps(trace, steps, i, w, j) {
        if Sleeps(trace, steps, i, w, j) {
          NoMissedWork(trace, steps, i, w, j);
        }
      }
    }
  }
}
