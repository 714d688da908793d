/**
 * The protocol around the list cache (internal/api/listcache.go:16-39, 144-167): requests
 * read the content generation, look the answer up, and on a miss read the database and
 * store what they built; writes commit, and only then move the generation. Every
 * interleaving of those steps is a run of the transition system below.
 */
module CacheFreshness {
  import opened Basics
  import opened ListCache

  /** The database is the set of content writes committed to it. */
  type Db = set<nat>

  /** What a handler computes for key from the database states its reads saw. */
  type Compute = (Key, seq<Db>) -> Hit

  /** One request; finished is what had finished when it read its generation. */
  datatype Request =
    | Began(key: Key, gen: nat, finished: Db)
    | Reading(key: Key, gen: nat, finished: Db, seen: seq<Db>)
    | Answered(key: Key, gen: nat, finished: Db, answer: Hit, fromCache: bool)

  /** moved lists the writes that have moved the generation on, which is their number. */
  datatype State = State(committed: Db, moved: seq<nat>, cache: Lru, requests: map<nat, Request>)

  datatype Step =
    | Commit(w: nat)                // a write commits
    | Move(w: nat)                  // and then moves the generation
    | Arrive(r: nat, key: Key)      // a request reads the generation
    | Look(r: nat)                  // and looks its answer up
    | Read(r: nat)                  // on a miss it reads the database
    | Keep(r: nat)                  // stores what it built and answers with it
    | Skip(r: nat)                  // or answers without storing it

  ghost predicate Init(s: State) {
    s.moved == [] && s.cache == Lru(0, []) && s.requests == map[]
  }

  ghost predicate Enabled(s: State, step: Step) {
    match step
    case Commit(w) => w !in s.committed
    case Move(w) => w in s.committed && w !in s.moved
    case Arrive(r, _) => r !in s.requests
    case Look(r) => r in s.requests && s.requests[r].Began?
    case Read(r) => r in s.requests && s.requests[r].Reading?
    case Keep(r) => r in s.requests && s.requests[r].Reading? && s.requests[r].seen != []
    case Skip(r) => r in s.requests && s.requests[r].Reading? && s.requests[r].seen != []
  }

  ghost function After(s: State, step: Step, compute: Compute): State
    requires Enabled(s, step)
  {
    match step
    case Commit(w) => s.(committed := s.committed + {w})
    case Move(w) => s.(moved := s.moved + [w])
    case Arrive(r, key) =>
      s.(requests := s.requests[r := Began(key, |s.moved|, Range(s.moved))])
    case Look(r) =>
      var q := s.requests[r];
      var (cache, hit) := s.cache.Get(q.gen, q.key);
      var q' := if hit.Some? then Answered(q.key, q.gen, q.finished, hit.value, true)
                else Reading(q.key, q.gen, q.finished, []);
      s.(cache := cache, requests := s.requests[r := q'])
    case Read(r) =>
      var q := s.requests[r];
      s.(requests := s.requests[r := q.(seen := q.seen + [s.committed])])
    case Keep(r) =>
      var q := s.requests[r];
      var built := compute(q.key, q.seen);
      s.(cache := s.cache.Put(q.gen, Entry(q.key, built.body, built.gz)),
         requests := s.requests[r := Answered(q.key, q.gen, q.finished, built, false)])
    case Skip(r) =>
      var q := s.requests[r];
      s.(requests := s.requests[r := Answered(q.key, q.gen, q.finished, compute(q.key, q.seen), false)])
  }

  /** A run: a sequence of states, each one step after the one before. */
  ghost predicate Run(trace: seq<State>, steps: seq<Step>, compute: Compute) {
    && |trace| == |steps| + 1
    && Init(trace[0])
    && forall i :: 0 <= i < |steps| ==>
      Enabled(trace[i], steps[i]) && trace[i + 1] == After(trace[i], steps[i], compute)
  }

  /** seen are states the database went through, in the order it did, that all hold the writes of floor. */
  ghost predicate Since(seen: seq<Db>, floor: Db, past: set<Db>) {
    && seen != []
    && (forall d <- seen :: floor <= d && d in past)
    && (forall m, n :: 0 <= m < n < |seen| ==> seen[m] <= seen[n])
  }

  /** answer was computed for key from such states. */
  ghost predicate BuiltSince(answer: Hit, key: Key, floor: Db, past: set<Db>, compute: Compute) {
    exists seen :: Since(seen, floor, past) && answer == compute(key, seen)
  }

  ghost predicate RequestInv(q: Request, s: State, past: set<Db>, compute: Compute) {
    && q.gen <= |s.moved| && q.finished == Range(s.moved[..q.gen])
    && (q.Reading? ==> q.seen == [] || Since(q.seen, q.finished, past))
    && (q.Answered? ==> BuiltSince(q.answer, q.key, q.finished, past, compute))
  }

  ghost predicate EntryInv(e: Entry, s: State, past: set<Db>, compute: Compute)
    requires s.cache.gen <= |s.moved|
  {
    BuiltSince(Hit(e.body, e.gz), e.key, Range(s.moved[..s.cache.gen]), past, compute)
  }

  /** past are the states the database went through, the present one included. */
  ghost predicate Inv(s: State, past: set<Db>, compute: Compute) {
    && s.committed in past && (forall d <- past :: d <= s.committed)
    && Range(s.moved) <= s.committed
    && s.cache.gen <= |s.moved|
    && (forall e <- s.cache.order :: EntryInv(e, s, past, compute))
    && (forall r <- s.requests :: RequestInv(s.requests[r], s, past, compute))
  }

  // ------------------------------------------------------------------ one step

  lemma BuiltLater(answer: Hit, key: Key, floor: Db, past: set<Db>, later: set<Db>, compute: Compute)
    requires BuiltSince(answer, key, floor, past, compute) && past <= later
    ensures BuiltSince(answer, key, floor, later, compute)
  {
    var seen :| Since(seen, floor, past) && answer == compute(key, seen);
    assert Since(seen, floor, later);
  }

  lemma CommitKeeps(s: State, w: nat, past: set<Db>, compute: Compute)
    requires Inv(s, past, compute) && Enabled(s, Commit(w))
    ensures Inv(After(s, Commit(w), compute), past + {s.committed + {w}}, compute)
  {
    var t, later := After(s, Commit(w), compute), past + {s.committed + {w}};
    forall e <- t.cache.order ensures EntryInv(e, t, later, compute) {
      BuiltLater(Hit(e.body, e.gz), e.key, Range(s.moved[..s.cache.gen]), past, later, compute);
    }
    forall r <- t.requests ensures RequestInv(t.requests[r], t, later, compute) {
      var q := s.requests[r];
      assert RequestInv(q, s, past, compute);
      if q.Answered? {
        BuiltLater(q.answer, q.key, q.finished, past, later, compute);
      }
    }
  }

  lemma MoveKeeps(s: State, w: nat, past: set<Db>, compute: Compute)
    requires Inv(s, past, compute) && Enabled(s, Move(w))
    ensures Inv(After(s, Move(w), compute), past, compute)
  {
    var t := After(s, Move(w), compute);
    assert forall g: nat :: g <= |s.moved| ==> t.moved[..g] == s.moved[..g];
    forall e <- t.cache.order ensures EntryInv(e, t, past, compute) {
      assert EntryInv(e, s, past, compute);
    }
    forall r <- t.requests ensures RequestInv(t.requests[r], t, past, compute) {
      assert RequestInv(s.requests[r], s, past, compute);
    }
  }

  /** A cache step that only touches or drops entries keeps what is known of each. */
  lemma EntriesKept(s: State, cache: Lru, past: set<Db>, compute: Compute)
    requires Inv(s, past, compute) && cache.gen <= |s.moved|
    requires forall e <- cache.order :: e in s.cache.order && cache.gen == s.cache.gen
    ensures forall e <- cache.order :: EntryInv(e, s.(cache := cache), past, compute)
  {
    forall e <- cache.order ensures EntryInv(e, s.(cache := cache), past, compute) {
      assert EntryInv(e, s, past, compute);
    }
  }

  lemma LookKeeps(s: State, r: nat, past: set<Db>, compute: Compute)
    requires Inv(s, past, compute) && Enabled(s, Look(r))
    ensures Inv(After(s, Look(r), compute), past, compute)
  {
    var t := After(s, Look(r), compute);
    var q := s.requests[r];
    assert RequestInv(q, s, past, compute);
    forall e <- t.cache.order ensures e in s.cache.order && t.cache.gen == s.cache.gen {
      MembersComeFromBefore(s.cache, Lookup(q.gen, q.key), e);
    }
    EntriesKept(s, t.cache, past, compute);
    var i := Find(s.cache.At(q.gen).order, q.key);
    if t.requests[r].Answered? {
      assert EntryInv(s.cache.order[i], s, past, compute);
    }
    forall p <- t.requests ensures RequestInv(t.requests[p], t, past, compute) {
      if p != r {
        assert RequestInv(s.requests[p], s, past, compute);
      }
    }
  }

  lemma KeepKeeps(s: State, r: nat, past: set<Db>, compute: Compute)
    requires Inv(s, past, compute) && Enabled(s, Keep(r))
    ensures Inv(After(s, Keep(r), compute), past, compute)
  {
    var t := After(s, Keep(r), compute);
    var q := s.requests[r];
    assert RequestInv(q, s, past, compute);
    var built := compute(q.key, q.seen);
    assert BuiltSince(built, q.key, q.finished, past, compute);
    var op := Store(q.gen, Entry(q.key, built.body, built.gz));
    forall e <- t.cache.order ensures EntryInv(e, t, past, compute) {
      if op != Store(t.cache.gen, e) {
        MembersComeFromBefore(s.cache, op, e);
        assert EntryInv(e, s, past, compute);
      }
    }
    forall p <- t.requests ensures RequestInv(t.requests[p], t, past, compute) {
      if p != r {
        assert RequestInv(s.requests[p], s, past, compute);
      }
    }
  }

  lemma RequestStepKeeps(s: State, step: Step, past: set<Db>, compute: Compute)
    requires Inv(s, past, compute) && Enabled(s, step) && (step.Arrive? || step.Read? || step.Skip?)
    ensures Inv(After(s, step, compute), past, compute)
  {
    var t := After(s, step, compute);
    assert s.moved[..|s.moved|] == s.moved;
    forall e <- t.cache.order ensures EntryInv(e, t, past, compute) {
      assert EntryInv(e, s, past, compute);
    }
    forall p <- t.requests ensures RequestInv(t.requests[p], t, past, compute) {
      if p != step.r {
        assert RequestInv(s.requests[p], s, past, compute);
      } else if step.Read? {
        assert RequestInv(s.requests[p], s, past, compute);
      } else if step.Skip? {
        var q := s.requests[p];
        assert Since(q.seen, q.finished, past);
      }
    }
  }

  /** Every step keeps the invariant. */
  lemma StepKeeps(s: State, step: Step, past: set<Db>, compute: Compute)
    requires Inv(s, past, compute) && Enabled(s, step)
    ensures Inv(After(s, step, compute), past + {After(s, step, compute).committed}, compute)
  {
    if !step.Commit? {
      assert past + {s.committed} == past;
    }
    match step
    case Commit(w) => CommitKeeps(s, w, past, compute);
    case Move(w) => MoveKeeps(s, w, past, compute);
    case Look(r) => LookKeeps(s, r, past, compute);
    case Keep(r) => KeepKeeps(s, r, past, compute);
    case _ => RequestStepKeeps(s, step, past, compute);
  }

  /** The states the database went through up to trace[i]. */
  ghost function Past(trace: seq<State>, i: nat): set<Db>
    requires i < |trace|
  {
    set k | 0 <= k <= i :: trace[k].committed
  }

  lemma {:induction false} RunKeeps(trace: seq<State>, steps: seq<Step>, compute: Compute, i: nat)
    requires Run(trace, steps, compute) && i < |trace|
    ensures Inv(trace[i], Past(trace, i), compute)
  {
    if i == 0 {
      assert Past(trace, 0) == {trace[0].committed};
    } else {
      RunKeeps(trace, steps, compute, i - 1);
      StepKeeps(trace[i - 1], steps[i - 1], Past(trace, i - 1), compute);
      assert Past(trace, i) == Past(trace, i - 1) + {trace[i].committed};
    }
  }

  // --------------------------------------------------------------- main results

  /** q was answered from states of the run up to trace[i], one after the other, that each hold every
      write finished before q read its generation. */
  ghost predicate Fresh(trace: seq<State>, i: nat, q: Request, seen: seq<Db>, compute: Compute)
    requires i < |trace| && q.Answered?
  {
    && seen != [] && q.answer == compute(q.key, seen)
    && (forall d <- seen :: q.finished <= d && exists k :: 0 <= k <= i && trace[k].committed == d)
    && (forall m, n :: 0 <= m < n < |seen| ==> seen[m] <= seen[n])
  }

  /**
   * In every run, every answer, from the cache or built afresh, was computed from states the
   * database went through that each hold every write finished before the request read its
   * generation.
   */
  lemma AnswersAreFresh(trace: seq<State>, steps: seq<Step>, compute: Compute, i: nat, r: nat)
    requires Run(trace, steps, compute) && i < |trace|
    requires r in trace[i].requests && trace[i].requests[r].Answered?
    ensures var q := trace[i].requests[r];
      && q.gen <= |trace[i].moved| && q.finished == Range(trace[i].moved[..q.gen])
      && exists seen :: Fresh(trace, i, q, seen, compute)
  {
    RunKeeps(trace, steps, compute, i);
    var q, past := trace[i].requests[r], Past(trace, i);
    assert RequestInv(q, trace[i], past, compute);
    var seen :| Since(seen, q.finished, past) && q.answer == compute(q.key, seen);
    assert Fresh(trace, i, q, seen, compute);
  }

  /** n reads that all saw db. */
  ghost function Repeat(db: Db, n: nat): (seen: seq<Db>)
    ensures |seen| == n && forall j :: 0 <= j < n ==> seen[j] == db
  {
    seq(n, _ => db)
  }

  /**
   * A hit while no content write has committed beyond those the request knows finished is
   * what recomputing from the database now would give: its every read saw this database.
   */
  lemma QuietHitIsExact(trace: seq<State>, steps: seq<Step>, compute: Compute, i: nat, r: nat)
    requires Run(trace, steps, compute) && i < |trace|
    requires r in trace[i].requests && trace[i].requests[r].Answered?
    requires trace[i].committed == trace[i].requests[r].finished
    ensures var q := trace[i].requests[r];
      exists n: nat :: n > 0 && q.answer == compute(q.key, Repeat(trace[i].committed, n))
  {
    AnswersAreFresh(trace, steps, compute, i, r);
    RunKeeps(trace, steps, compute, i);
    var q, now := trace[i].requests[r], trace[i].committed;
    var seen :| Fresh(trace, i, q, seen, compute);
    forall j | 0 <= j < |seen| ensures seen[j] == now {
      assert seen[j] in seen;
      var k :| 0 <= k <= i && trace[k].committed == seen[j];
      assert trace[k].committed in Past(trace, i);
    }
    assert seen == Repeat(now, |seen|);
  }

  /** The generation the cache is at is never ahead of the database's, and a request holding an
      older one than the cache's gets nothing from it and leaves it alone. */
  lemma OldRequestsAreInert(trace: seq<State>, steps: seq<Step>, compute: Compute, i: nat)
    requires Run(trace, steps, compute) && i < |steps|
    requires steps[i].Look? || steps[i].Keep?
    requires trace[i].requests[steps[i].r].gen < trace[i].cache.gen
    ensures trace[i].cache.gen <= |trace[i].moved|
    ensures trace[i + 1].cache == trace[i].cache
    ensures steps[i].Look? ==> trace[i + 1].requests[steps[i].r].Reading?
  {
    RunKeeps(trace, steps, compute, i);
  }

  /**
   * What a request stores the very next of its generation with the same key is answered with, unless
   * a request before it had stored an answer already, which then stays the one given.
   */
  lemma StoredIsHit(s: State, keep: Step, look: Step, compute: Compute)
    requires Enabled(s, keep) && keep.Keep? && s.requests[keep.r].gen >= s.cache.gen
    requires Enabled(After(s, keep, compute), look) && look.Look? && look.r in s.requests
    requires s.requests[look.r].key == s.requests[keep.r].key && s.requests[look.r].gen == s.requests[keep.r].gen
    requires compute(s.requests[keep.r].key, s.requests[keep.r].seen).body.Len() <= 1024 * 1024
    ensures
      var q, was := s.requests[keep.r], s.cache.Get(s.requests[keep.r].gen, s.requests[keep.r].key).1;
      var told := After(After(s, keep, compute), look, compute).requests[look.r];
      told.Answered? && told.fromCache && (was.None? ==> told.answer == compute(q.key, q.seen))
  {
    var q := s.requests[keep.r];
    var built := compute(q.key, q.seen);
    NewEntrySurvives(s.cache, q.gen, Entry(q.key, built.body, built.gz));
  }
}
