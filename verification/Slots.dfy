/**
 * The cover pipelines' slots (internal/api/handlers_covers.go:322-361,
 * internal/api/handlers_community_covers.go:97-153). Own art holds a coverReads slot and, inside
 * it, a thumbSem slot for its decode; a community leader holds a communityReads slot and then
 * thumbSem; a direct decode takes thumbSem alone; an ask that follows a leader's flight holds
 * nothing. Any number of them run at once.
 */
module Slots {

  datatype Kind = OwnArt | Community | Direct | Follower(leader: nat)

  datatype Phase =
    | Waiting    // for its first slot, a follower for its leader
    | Reading    // holds its read slot
    | Decoding   // holds thumbSem, and its read slot if it has one
    | Scaled     // gave thumbSem back, still holds its read slot
    | Done

  datatype Thread = Thread(kind: Kind, phase: Phase) {
    predicate HoldsCover() { kind.OwnArt? && (phase.Reading? || phase.Decoding? || phase.Scaled?) }
    predicate HoldsCommunity() { kind.Community? && (phase.Reading? || phase.Decoding? || phase.Scaled?) }
    predicate HoldsThumb() { phase.Decoding? }
    predicate WantsThumb() { phase.Reading? || (kind.Direct? && phase.Waiting?) }

    /** The phases a kind goes through. */
    predicate WellFormed() {
      && (kind.Direct? ==> phase.Waiting? || phase.Decoding? || phase.Done?)
      && (kind.Follower? ==> phase.Waiting? || phase.Done?)
    }

    function Weight(): nat {
      match phase
      case Waiting => if kind.Follower? then 6 else 5
      case Reading => 4
      case Decoding => 3
      case Scaled => 2
      case Done => 0
    }
  }

  /** The channels' capacities, and how full each is. */
  datatype Caps = Caps(cover: nat, community: nat, thumb: nat) {
    predicate Valid() { cover > 0 && community > 0 && thumb > 0 }
  }

  datatype State = State(threads: seq<Thread>, cover: nat, community: nat, thumb: nat)

  datatype Step =
    | TakeRead(i: nat)
    | TakeThumb(i: nat)
    | Scale(i: nat)             // the decode is over: thumbSem is given back
    | Return(i: nat)            // the deferred release of the read slot
    | Follow(i: nat)            // a follower answers with its leader's result
    | Lead(i: nat)              // or, its leader having given up, leads itself
    | Rejoin(i: nat, l: nat)    // or follows another leader
    | Quit(i: nat)              // its request ended, or there is nothing to decode

  predicate Enabled(c: Caps, s: State, step: Step) {
    step.i < |s.threads| &&
    var t := s.threads[step.i];
    match step
    case TakeRead(_) => t.phase.Waiting?
      && ((t.kind.OwnArt? && s.cover < c.cover) || (t.kind.Community? && s.community < c.community))
    case TakeThumb(_) => s.thumb < c.thumb && t.WantsThumb()
    case Scale(_) => t.phase.Decoding?
    case Return(_) => t.phase.Scaled?
    case Follow(_) => t.kind.Follower? && t.phase.Waiting? && Ended(s, t.kind.leader)
    case Lead(_) => t.kind.Follower? && t.phase.Waiting? && Ended(s, t.kind.leader)
    case Rejoin(_, l) => t.kind.Follower? && t.phase.Waiting? && Ended(s, t.kind.leader)
                         && l < |s.threads| && s.threads[l].kind.Community? && !s.threads[l].phase.Done?
    case Quit(_) => t.phase.Waiting? || t.phase.Reading?
  }

  predicate Ended(s: State, l: nat) {
    l < |s.threads| && s.threads[l].phase.Done?
  }

  /** Thread i as t, the counts of full slots following. */
  function Put(s: State, i: nat, t: Thread): State
    requires i < |s.threads|
  {
    var was := s.threads[i];
    State(s.threads[i := t],
          Shift(s.cover, was.HoldsCover(), t.HoldsCover()),
          Shift(s.community, was.HoldsCommunity(), t.HoldsCommunity()),
          Shift(s.thumb, was.HoldsThumb(), t.HoldsThumb()))
  }

  /** One slot taken (a send) or given back (a receive). */
  function Shift(n: nat, before: bool, after: bool): nat {
    if !before && after then n + 1 else if before && !after && n > 0 then n - 1 else n
  }

  /** What a step makes of its thread. */
  function Turned(t: Thread, step: Step): Thread {
    match step
    case TakeRead(_) => t.(phase := Reading)
    case TakeThumb(_) => t.(phase := Decoding)
    case Scale(_) => t.(phase := if t.kind.Direct? then Done else Scaled)
    case Lead(_) => Thread(Community, Waiting)
    case Rejoin(_, l) => Thread(Follower(l), Waiting)
    case _ => t.(phase := Done)
  }

  function After(c: Caps, s: State, step: Step): State
    requires Enabled(c, s, step)
  {
    Put(s, step.i, Turned(s.threads[step.i], step))
  }

  // ------------------------------------------------------------------- the invariant

  function Count(threads: seq<Thread>, p: Thread -> bool): nat {
    if threads == [] then 0 else Count(threads[1..], p) + if p(threads[0]) then 1 else 0
  }

  lemma {:induction false} CountPut(threads: seq<Thread>, p: Thread -> bool, i: nat, t: Thread)
    requires i < |threads|
    ensures Count(threads[i := t], p) == Count(threads, p)
      + (if p(t) then 1 else 0) - (if p(threads[i]) then 1 else 0)
  {
    var next := threads[i := t];
    if i > 0 {
      CountPut(threads[1..], p, i - 1, t);
      assert next[1..] == threads[1..][i - 1 := t];
    } else {
      assert next[1..] == threads[1..];
    }
  }

  lemma {:induction false} CountNone(threads: seq<Thread>, p: Thread -> bool)
    requires forall i :: 0 <= i < |threads| ==> !p(threads[i])
    ensures Count(threads, p) == 0
  {
    if threads != [] {
      CountNone(threads[1..], p);
    }
  }

  lemma {:induction false} CountSome(threads: seq<Thread>, p: Thread -> bool, i: nat)
    requires i < |threads| && p(threads[i])
    ensures Count(threads, p) > 0
  {
    if i > 0 {
      CountSome(threads[1..], p, i - 1);
    }
  }

  const COVER := (t: Thread) => t.HoldsCover()
  const COMMUNITY := (t: Thread) => t.HoldsCommunity()
  const THUMB := (t: Thread) => t.HoldsThumb()

  ghost predicate Inv(c: Caps, s: State) {
    && s.cover == Count(s.threads, COVER) <= c.cover
    && s.community == Count(s.threads, COMMUNITY) <= c.community
    && s.thumb == Count(s.threads, THUMB) <= c.thumb
    && WellFormed(s)
  }

  /** A follower follows a community leader, never another follower. */
  predicate LeaderLeads(s: State, t: Thread) {
    t.kind.Follower? ==> t.kind.leader < |s.threads| && s.threads[t.kind.leader].kind.Community?
  }

  ghost predicate Init(s: State) {
    && s.cover == s.community == s.thumb == 0
    && forall i :: 0 <= i < |s.threads| ==> s.threads[i].phase.Waiting? && LeaderLeads(s, s.threads[i])
  }

  lemma InitHolds(c: Caps, s: State)
    requires Init(s)
    ensures Inv(c, s)
  {
    CountNone(s.threads, COVER);
    CountNone(s.threads, COMMUNITY);
    CountNone(s.threads, THUMB);
  }

  ghost predicate WellFormed(s: State) {
    forall i :: 0 <= i < |s.threads| ==> s.threads[i].WellFormed() && LeaderLeads(s, s.threads[i])
  }

  lemma StepKeepsForm(c: Caps, s: State, step: Step)
    requires WellFormed(s) && Enabled(c, s, step)
    ensures WellFormed(After(c, s, step))
  {
    var u := After(c, s, step);
    var was, t := s.threads[step.i], u.threads[step.i];
    assert was.WellFormed() && LeaderLeads(s, was);
    assert was.kind.Community? ==> t.kind.Community?;
    assert t.WellFormed() && LeaderLeads(s, t);
    forall j | 0 <= j < |u.threads| ensures u.threads[j].WellFormed() && LeaderLeads(u, u.threads[j]) {
      assert j != step.i ==> s.threads[j].WellFormed() && LeaderLeads(s, s.threads[j]);
    }
  }

  /** A slot is taken only where there is one. */
  lemma StepTakesOneFree(c: Caps, s: State, step: Step)
    requires Inv(c, s) && Enabled(c, s, step)
    ensures var u := After(c, s, step); u.cover <= c.cover && u.community <= c.community && u.thumb <= c.thumb
  {
    assert s.threads[step.i].WellFormed();
  }

  /** Every step keeps each channel's length the number of its holders, and within capacity. */
  lemma StepKeeps(c: Caps, s: State, step: Step)
    requires Inv(c, s) && Enabled(c, s, step)
    ensures Inv(c, After(c, s, step))
  {
    PutKeepsCounts(s, step.i, Turned(s.threads[step.i], step));
    StepKeepsForm(c, s, step);
    StepTakesOneFree(c, s, step);
  }

  lemma PutKeepsCounts(s: State, i: nat, t: Thread)
    requires i < |s.threads|
    requires s.cover == Count(s.threads, COVER) && s.community == Count(s.threads, COMMUNITY)
      && s.thumb == Count(s.threads, THUMB)
    ensures var u := Put(s, i, t);
      u.cover == Count(u.threads, COVER) && u.community == Count(u.threads, COMMUNITY)
        && u.thumb == Count(u.threads, THUMB)
  {
    CountPut(s.threads, COVER, i, t);
    CountPut(s.threads, COMMUNITY, i, t);
    CountPut(s.threads, THUMB, i, t);
    if s.threads[i].HoldsCover() { CountSome(s.threads, COVER, i); }
    if s.threads[i].HoldsCommunity() { CountSome(s.threads, COMMUNITY, i); }
    if s.threads[i].HoldsThumb() { CountSome(s.threads, THUMB, i); }
  }

  ghost predicate Run(c: Caps, trace: seq<State>, steps: seq<Step>) {
    && |trace| == |steps| + 1 && Init(trace[0])
    && forall i :: 0 <= i < |steps| ==> Enabled(c, trace[i], steps[i]) && trace[i + 1] == After(c, trace[i], steps[i])
  }

  lemma {:induction false} RunKeeps(c: Caps, trace: seq<State>, steps: seq<Step>, i: nat)
    requires Run(c, trace, steps) && i < |trace|
    ensures Inv(c, trace[i])
  {
    if i == 0 {
      InitHolds(c, trace[0]);
    } else {
      RunKeeps(c, trace, steps, i - 1);
      StepKeeps(c, trace[i - 1], steps[i - 1]);
    }
  }

  // --------------------------------------------------------------------- main results

  ghost predicate AllDone(s: State) {
    forall i :: 0 <= i < |s.threads| ==> s.threads[i].phase.Done?
  }

  /** A step that needs no request to end and no decode to fail. */
  ghost predicate CanGoOn(c: Caps, s: State) {
    exists step: Step :: !step.Quit? && Enabled(c, s, step)
  }

  lemma NotStuck(c: Caps, s: State)
    requires c.Valid() && Inv(c, s) && !AllDone(s)
    ensures CanGoOn(c, s)
  {
    if i: nat :| i < |s.threads| && s.threads[i].phase.Decoding? {
      assert Enabled(c, s, Scale(i));
    } else if i: nat :| i < |s.threads| && s.threads[i].phase.Scaled? {
      assert Enabled(c, s, Return(i));
    } else {
      CountNone(s.threads, THUMB);
      if i: nat :| i < |s.threads| && s.threads[i].WantsThumb() {
        assert Enabled(c, s, TakeThumb(i));
      } else {
        CountNone(s.threads, COVER);
        CountNone(s.threads, COMMUNITY);
        var i: nat :| i < |s.threads| && !s.threads[i].phase.Done?;
        if s.threads[i].kind.Follower? {
          var l := s.threads[i].kind.leader;
          assert LeaderLeads(s, s.threads[i]);
          if s.threads[l].phase.Done? {
            assert Enabled(c, s, Follow(i));
          } else {
            assert Enabled(c, s, TakeRead(l));
          }
        } else {
          assert Enabled(c, s, TakeRead(i));
        }
      }
    }
  }

  /** Main result: every reachable unfinished state has an enabled step, and no channel ever holds
      more than its capacity, however many threads run. */
  lemma PipelinesNeverDeadlock(c: Caps, trace: seq<State>, steps: seq<Step>, i: nat)
    requires c.Valid() && Run(c, trace, steps) && i < |trace|
    ensures AllDone(trace[i]) || CanGoOn(c, trace[i])
    ensures trace[i].cover <= c.cover && trace[i].community <= c.community && trace[i].thumb <= c.thumb
  {
    RunKeeps(c, trace, steps, i);
    if !AllDone(trace[i]) {
      NotStuck(c, trace[i]);
    }
  }

  function Work(threads: seq<Thread>): nat {
    if threads == [] then 0 else threads[0].Weight() + Work(threads[1..])
  }

  lemma {:induction false} WorkPut(threads: seq<Thread>, i: nat, t: Thread)
    requires i < |threads|
    ensures Work(threads[i := t]) == Work(threads) + t.Weight() - threads[i].Weight()
  {
    var next := threads[i := t];
    if i > 0 {
      WorkPut(threads[1..], i - 1, t);
      assert next[1..] == threads[1..][i - 1 := t];
    } else {
      assert next[1..] == threads[1..];
    }
  }

  /** Whether t still follows a leader that has ended. */
  predicate Stale(s: State, t: Thread) {
    t.kind.Follower? && t.phase.Waiting? && Ended(s, t.kind.leader)
  }

  ghost function StaleIn(s: State): (n: nat)
    ensures n <= |s.threads|
  {
    CountAtMost(s.threads, t => Stale(s, t));
    Count(s.threads, t => Stale(s, t))
  }

  lemma {:induction false} CountAtMost(threads: seq<Thread>, p: Thread -> bool)
    ensures Count(threads, p) <= |threads|
  {
    if threads != [] {
      CountAtMost(threads[1..], p);
    }
  }

  /** What is left to do: the threads' work first, then the followers still to look again. */
  ghost function Remaining(s: State): nat {
    Work(s.threads) * (|s.threads| + 1) + StaleIn(s)
  }

  lemma {:induction false} CountSame(threads: seq<Thread>, p: Thread -> bool, q: Thread -> bool)
    requires forall t :: p(t) == q(t)
    ensures Count(threads, p) == Count(threads, q)
  {
    if threads != [] {
      CountSame(threads[1..], p, q);
    }
  }

  lemma RejoinIsProgress(c: Caps, s: State, step: Step)
    requires step.Rejoin? && Inv(c, s) && Enabled(c, s, step)
    ensures Remaining(After(c, s, step)) < Remaining(s)
  {
    var i, u := step.i, After(c, s, step);
    WorkPut(s.threads, i, u.threads[i]);
    var p, q := t => Stale(s, t), t => Stale(u, t);
    assert forall l :: Ended(s, l) == Ended(u, l);
    CountSame(u.threads, p, q);
    CountPut(s.threads, p, i, u.threads[i]);
  }

  lemma StepIsProgress(c: Caps, s: State, step: Step)
    requires Inv(c, s) && Enabled(c, s, step)
    ensures Remaining(After(c, s, step)) < Remaining(s)
  {
    if step.Rejoin? {
      RejoinIsProgress(c, s, step);
    } else {
      var u := After(c, s, step);
      WorkPut(s.threads, step.i, u.threads[step.i]);
      TurnedIsLighter(c, s, step);
      LessWork(Work(u.threads), Work(s.threads), |s.threads| + 1);
    }
  }

  lemma TurnedIsLighter(c: Caps, s: State, step: Step)
    requires Inv(c, s) && Enabled(c, s, step) && !step.Rejoin?
    ensures Turned(s.threads[step.i], step).Weight() < s.threads[step.i].Weight()
  {
    assert s.threads[step.i].WellFormed();
  }

  lemma {:induction false} LessWork(a: nat, b: nat, n: nat)
    requires a < b
    ensures a * n + n <= b * n
    decreases b
  {
    if a + 1 < b {
      LessWork(a, b - 1, n);
    }
    assert b * n == (b - 1) * n + n;
  }

  /** Main result: no run goes on for ever, so with no step missing every request is answered. */
  lemma {:induction false} RunsEnd(c: Caps, trace: seq<State>, steps: seq<Step>)
    requires Run(c, trace, steps)
    ensures |steps| + Remaining(trace[|steps|]) <= Remaining(trace[0])
  {
    var n := |steps|;
    if n > 0 {
      assert Run(c, trace[..n], steps[..n - 1]);
      RunsEnd(c, trace[..n], steps[..n - 1]);
      RunKeeps(c, trace, steps, n - 1);
      StepIsProgress(c, trace[n - 1], steps[n - 1]);
    }
  }
}
