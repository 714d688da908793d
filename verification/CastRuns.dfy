/**
 * Cast tokens over whole runs of sign-ins, mints, prunes, sign-outs and requests
 * (internal/auth/cast.go:22-33): pruning is invisible, a person keeps a bounded number, a mint
 * yields what works, and a signed-out sender's tokens never work again.
 */
module CastRuns {
  import opened Basics
  import opened CastTokens

  datatype Op =
    | Ask(request: Request)
    | SignIn(user: Id, kind: Kind, expires: Option<int>, key: string, createdOn: Option<Id>)
    | Mint(user: Id, sender: Id, library: Id, path: string)
    | Prune
    | SignOut(id: Id, owner: Id, alsoMembers: bool)

  datatype Event = At(now: Time, op: Op)

  datatype Reply = Answer(outcome: Outcome) | New(id: Option<Id>) | Done | Gone(members: Option<set<string>>)

  /** A sign-in makes no cast token; a mint's caller is a session (handleMintCastToken bars API
      keys, and no other kind authenticates there). */
  predicate Allowed(db: Db, e: Event) {
    match e.op
    case SignIn(_, kind, _, _, _) => !kind.Cast?
    case Mint(_, sender, _, _) => sender in db.tokens && db.tokens[sender].kind.Session?
    case _ => true
  }

  function After(db: Db, e: Event): Db {
    match e.op
    case Ask(_) => db
    case SignIn(user, kind, expires, key, createdOn) => db.Inserted(Token(user, kind, expires, false, key, createdOn))
    case Mint(user, sender, library, path) => db.Minted(user, sender, library, path, e.now).GetOr(db)
    case Prune => db.Pruned(e.now)
    case SignOut(i, owner, also) => if db.MaySignOut(i, owner) then db.SignedOut(i, owner, also) else db
  }

  function Says(db: Db, e: Event): Reply {
    match e.op
    case Ask(request) => Answer(db.Resolve(request, e.now))
    case SignIn(_, _, _, _, _) => New(Some(db.nextId))
    case Mint(user, sender, library, path) =>
      New(if db.Minted(user, sender, library, path, e.now).Some? then Some(db.nextId) else None)
    case Prune => Done
    case SignOut(i, owner, also) => Gone(if db.MaySignOut(i, owner) then Some(db.MembersOn(i, owner, also)) else None)
  }

  /** Events in the clock's order, none before from, each allowed when its turn comes. */
  predicate IsRun(db: Db, events: seq<Event>, from: Time)
    decreases |events|
  {
    events == [] ||
    (from <= events[0].now && Allowed(db, events[0])
     && IsRun(After(db, events[0]), events[1..], events[0].now))
  }

  function Run(db: Db, events: seq<Event>): Db
    decreases |events|
  {
    if events == [] then db else Run(After(db, events[0]), events[1..])
  }

  function Replies(db: Db, events: seq<Event>): seq<Reply>
    decreases |events|
  {
    if events == [] then [] else [Says(db, events[0])] + Replies(After(db, events[0]), events[1..])
  }

  // ------------------------------------------------------------------------ the tables stay sound

  lemma WithoutKeepsValid(db: Db, gone: set<Id>)
    requires db.Valid()
    ensures db.Without(gone).Valid()
  {
    var rest := db.Without(gone);
    forall i <- rest.grants ensures rest.GrantIsSound(i) {
      assert db.GrantIsSound(i);
    }
  }

  lemma InsertKeepsValid(db: Db, t: Token)
    requires db.Valid()
    ensures db.Inserted(t).Valid() && db.nextId !in db.grants
    ensures db.nextId !in db.tokens
  {
    var more := db.Inserted(t);
    assert db.nextId !in db.tokens;
    forall i <- more.grants ensures more.GrantIsSound(i) {
      assert db.GrantIsSound(i);
    }
    assert forall i <- db.grants :: i in db.tokens by {
      assert forall i <- db.grants :: db.GrantIsSound(i);
    }
  }

  lemma MintKeepsValid(db: Db, user: Id, sender: Id, library: Id, path: string, now: Time)
    requires db.Valid() && sender in db.tokens && !db.tokens[sender].kind.Cast?
    ensures var m := db.Minted(user, sender, library, path, now); m.Some? ==> m.value.Valid()
  {
    if db.Minted(user, sender, library, path, now).Some? {
      BeforeTrimIsValid(db, user, sender, library, path, now);
      var more := BeforeTrim(db, user, sender, library, path, now);
      WithoutKeepsValid(more, more.CastsOf(user) - Newest(more.CastsOf(user), MAX_CAST_TOKENS, more.nextId));
    }
  }

  lemma SignOutKeepsValid(db: Db, i: Id, owner: Id, also: bool)
    requires db.Valid() && i in db.tokens
    ensures db.SignedOut(i, owner, also).Valid()
  {
    var out := db.SignedOut(i, owner, also);
    forall j <- out.grants ensures out.GrantIsSound(j) {
      assert db.GrantIsSound(j);
    }
  }

  lemma StepKeepsValid(db: Db, e: Event)
    requires db.Valid() && Allowed(db, e)
    ensures After(db, e).Valid()
  {
    match e.op
    case Ask(_) =>
    case SignIn(user, kind, expires, key, createdOn) =>
      InsertKeepsValid(db, Token(user, kind, expires, false, key, createdOn));
    case Mint(user, sender, library, path) =>
      MintKeepsValid(db, user, sender, library, path, e.now);
    case Prune =>
      WithoutKeepsValid(db, db.Dead(e.now));
    case SignOut(i, owner, also) =>
      if db.MaySignOut(i, owner) {
        SignOutKeepsValid(db, i, owner, also);
      }
  }

  // ------------------------------------------------------------------------ pruning is invisible

  lemma DeadStaysDead(db: Db, i: Id, now: Time, later: Time)
    requires i in db.tokens && db.IsDead(i, now) && now <= later
    ensures db.IsDead(i, later)
  {
    ExpiryIsForGood(db.tokens[i].expires, now, later);
    if i in db.grants && db.grants[i].parent in db.tokens {
      ExpiryIsForGood(db.tokens[db.grants[i].parent].expires, now, later);
    }
  }

  lemma DeadIsRefused(db: Db, r: Request, now: Time, t: Time)
    requires r.id in db.Dead(now) && now < t
    ensures db.Resolve(r, t) == Invalid
  {
    ExpiryIsForGood(db.tokens[r.id].expires, now, t);
    if r.id in db.grants && db.grants[r.id].parent in db.tokens {
      ExpiryIsForGood(db.tokens[db.grants[r.id].parent].expires, now, t);
    }
  }

  /** Deleting dead cast tokens changes no answer about any other token. */
  lemma OthersAnswer(db: Db, gone: set<Id>, now: Time, r: Request, t: Time)
    requires db.Valid() && gone <= db.Dead(now)
    ensures db.Without(gone).Resolve(r, t) == if r.id in gone then Invalid else db.Resolve(r, t)
  {
    if r.id in db.grants {
      assert db.GrantIsSound(r.id);
    }
  }

  /** The cast token i or its sender expires at exactly this instant. */
  predicate AtItsLastInstant(db: Db, i: Id, now: Time) {
    i in db.tokens && db.tokens[i].kind.Cast? &&
    (ExpiresAt(db.tokens[i].expires, now) ||
     (i in db.grants && db.grants[i].parent in db.tokens && ExpiresAt(db.tokens[db.grants[i].parent].expires, now)))
  }

  /**
   * A prune changes the answer to no request, present or future, but one: a live cast token asked
   * for at the very instant of the prune, when that is the instant it or its sender expires. The
   * statement counts that instant as expired, the check does not.
   */
  lemma PruneIsInvisibleExactly(db: Db, now: Time, r: Request, t: Time)
    requires db.Valid() && now <= t
    ensures db.Pruned(now).Resolve(r, t) == db.Resolve(r, t) <==>
      !(t == now && AtItsLastInstant(db, r.id, now) && db.Resolve(r, now).Accepted?)
  {
    OthersAnswer(db, db.Dead(now), now, r, t);
    if r.id in db.tokens {
      LapsedOrPast(db.tokens[r.id].expires, now);
      if r.id in db.grants {
        assert db.GrantIsSound(r.id);
        LapsedOrPast(db.tokens[db.grants[r.id].parent].expires, now);
      }
    }
    if now < t && r.id in db.Dead(now) {
      DeadIsRefused(db, r, now, t);
    }
  }

  /** That one case arises: a token that still answers, gone by a prune at its last instant. */
  lemma PruneAtTheExpiry()
    ensures exists db: Db, now, r ::
      db.Valid() && db.Resolve(r, now).Accepted? && db.Pruned(now).Resolve(r, now) == Invalid
  {
    var sender, cast := Token(1, Session, None, false, "", None), Token(1, Cast, Some(5), false, "", None);
    var db := Db(map[1 := User(false, false, 0, "sam")], map[1 := sender, 2 := cast], map[2 := Grant(7, "Book", 1)], 3);
    var r := Request(2, {Cast}, Some(Media(7, "Book")));
    assert db.GrantIsSound(2) && db.Valid();
    assert db.Resolve(r, 5 * SECOND) == Accepted(1, 1);
    PruneIsInvisibleExactly(db, 5 * SECOND, r, 5 * SECOND);
  }

  lemma WithoutTwice(db: Db, a: set<Id>, b: set<Id>)
    ensures db.Without(a).Without(b) == db.Without(a + b)
  {
    assert db.Without(a).Without(b).grants == db.Without(a + b).grants;
    assert db.Without(a).Without(b).tokens == db.Without(a + b).tokens;
  }

  /** Some dead tokens already gone, a prune leaves the same. */
  lemma PrunesMeet(db: Db, gone: set<Id>, now: Time, t: Time)
    requires db.Valid() && gone <= db.Dead(now) && now <= t
    ensures db.Without(gone).Pruned(t) == db.Pruned(t)
  {
    var rest := db.Without(gone);
    forall i <- gone ensures i in db.Dead(t) {
      DeadStaysDead(db, i, now, t);
    }
    forall i | i in rest.tokens ensures rest.IsDead(i, t) <==> db.IsDead(i, t) {
      if i in db.grants {
        assert db.GrantIsSound(i);
      }
    }
    assert gone + rest.Dead(t) == db.Dead(t);
    WithoutTwice(db, gone, rest.Dead(t));
  }

  lemma SignInCommutes(db: Db, gone: set<Id>, now: Time, t: Token)
    requires db.Valid() && gone <= db.Dead(now)
    ensures db.Without(gone).Inserted(t) == db.Inserted(t).Without(gone)
    ensures gone <= db.Inserted(t).Dead(now)
  {
    InsertKeepsValid(db, t);
    assert db.Without(gone).Inserted(t).tokens == db.Inserted(t).Without(gone).tokens;
    forall i <- gone ensures i in db.Inserted(t).Dead(now) {
      assert db.IsDead(i, now);
      if i in db.grants {
        assert db.GrantIsSound(i);
      }
    }
  }

  lemma SignOutCommutes(db: Db, gone: set<Id>, now: Time, i: Id, owner: Id, also: bool)
    requires db.Valid() && gone <= db.Dead(now)
    ensures db.Without(gone).MaySignOut(i, owner) <==> db.MaySignOut(i, owner)
    ensures db.MaySignOut(i, owner) ==>
      && db.Without(gone).SignedOut(i, owner, also) == db.SignedOut(i, owner, also).Without(gone)
      && db.Without(gone).MembersOn(i, owner, also) == db.MembersOn(i, owner, also)
      && gone <= db.SignedOut(i, owner, also).Dead(now)
  {
    var rest := db.Without(gone);
    if db.MaySignOut(i, owner) {
      assert rest.SignedOut(i, owner, also).tokens == db.SignedOut(i, owner, also).Without(gone).tokens;
      assert rest.TakenAlong(i, owner) == db.TakenAlong(i, owner);
      SameNames(rest, db, db.TakenAlong(i, owner));
      SignOutKeepsDead(db, i, owner, also, now);
    }
  }

  lemma SignOutKeepsDead(db: Db, i: Id, owner: Id, also: bool, now: Time)
    requires i in db.tokens
    ensures db.Dead(now) <= db.SignedOut(i, owner, also).Dead(now)
  {
    var out := db.SignedOut(i, owner, also);
    forall j <- db.Dead(now) ensures j in out.Dead(now) {
      assert db.IsDead(j, now);
      assert out.HasLiveParent(j, now) ==> db.HasLiveParent(j, now);
    }
  }

  /** rest is db with some of the cast tokens dead by now missing. */
  ghost predicate Lacks(db: Db, rest: Db, now: Time) {
    exists gone :: gone <= db.Dead(now) && rest == db.Without(gone)
  }

  lemma LacksNothing(db: Db, now: Time)
    ensures Lacks(db, db, now)
  {
    assert db.Without({}).tokens == db.tokens && db.Without({}).grants == db.grants;
    assert db == db.Without({});
  }

  /** Whatever happens next, at any later instant, the missing dead tokens are not missed. */
  lemma StepLacks(db: Db, rest: Db, now: Time, e: Event)
    requires db.Valid() && Lacks(db, rest, now) && now < e.now && Allowed(db, e)
    ensures Allowed(rest, e) && Says(rest, e) == Says(db, e)
    ensures Lacks(After(db, e), After(rest, e), now)
  {
    var gone :| gone <= db.Dead(now) && rest == db.Without(gone);
    match e.op
    case Ask(r) =>
      OthersAnswer(db, gone, now, r, e.now);
      if r.id in gone {
        DeadIsRefused(db, r, now, e.now);
      }
    case SignIn(user, kind, expires, key, createdOn) =>
      SignInCommutes(db, gone, now, Token(user, kind, expires, false, key, createdOn));
    case Mint(user, sender, library, path) =>
      PrunesMeet(db, gone, now, e.now);
      LacksNothing(After(db, e), now);
    case Prune =>
      PrunesMeet(db, gone, now, e.now);
      LacksNothing(After(db, e), now);
    case SignOut(i, owner, also) =>
      SignOutCommutes(db, gone, now, i, owner, also);
  }

  lemma {:induction false} RunLacks(db: Db, rest: Db, now: Time, from: Time, events: seq<Event>)
    requires db.Valid() && Lacks(db, rest, now) && now < from && IsRun(db, events, from)
    ensures IsRun(rest, events, from) && Replies(rest, events) == Replies(db, events)
    decreases |events|
  {
    if events != [] {
      StepLacks(db, rest, now, events[0]);
      StepKeepsValid(db, events[0]);
      RunLacks(After(db, events[0]), After(rest, events[0]), now, events[0].now, events[1..]);
    }
  }

  /** A prune changes no reply of any later run. */
  lemma {:induction false} PruneIsInvisibleForever(db: Db, now: Time, from: Time, events: seq<Event>)
    requires db.Valid() && now < from && IsRun(db, events, from)
    ensures IsRun(db.Pruned(now), events, from)
    ensures Replies(db.Pruned(now), events) == Replies(db, events)
  {
    assert Lacks(db, db.Pruned(now), now);
    RunLacks(db, db.Pruned(now), now, from, events);
  }

  // ------------------------------------------------------------------------ how many, and which

  /** No person holds more than 20 cast tokens. */
  ghost predicate Bounded(db: Db) {
    forall user: Id :: |db.CastsOf(user)| <= 20
  }

  lemma FewerCasts(db: Db, more: Db)
    requires Bounded(db) && forall user: Id :: more.CastsOf(user) <= db.CastsOf(user)
    ensures Bounded(more)
  {
    forall user: Id ensures |more.CastsOf(user)| <= 20 {
      SubsetSize(more.CastsOf(user), db.CastsOf(user));
    }
  }

  /** The tables of a mint before its last statement. */
  function BeforeTrim(db: Db, user: Id, sender: Id, library: Id, path: string, now: Time): Db {
    db.Pruned(now).Inserted(CastToken(user, now)).Granted(db.nextId, Grant(library, path, sender))
  }

  lemma TrimKeepsNewest(db: Db, user: Id)
    requires db.Valid()
    ensures var kept, all := db.Trimmed(user).CastsOf(user), db.CastsOf(user);
      && kept <= all && |kept| == Min(20, |all|)
      && forall i <- kept, j <- all - kept :: j < i
    ensures forall other: Id :: other != user ==> db.Trimmed(user).CastsOf(other) == db.CastsOf(other)
  {
    var all := db.CastsOf(user);
    NewestAreNewest(all, MAX_CAST_TOKENS, db.nextId);
    assert db.Trimmed(user).CastsOf(user) == Newest(all, MAX_CAST_TOKENS, db.nextId);
  }

  /**
   * What a mint leaves a person: of the live cast tokens and the new one, the newest 20, the new one
   * among them.
   */
  lemma MintKeepsNewest(db: Db, user: Id, sender: Id, library: Id, path: string, now: Time)
    requires db.Valid() && sender in db.tokens && !db.tokens[sender].kind.Cast?
    requires db.Minted(user, sender, library, path, now).Some?
    ensures
      var kept := db.Minted(user, sender, library, path, now).value.CastsOf(user);
      var all := db.CastsOf(user) - db.Dead(now) + {db.nextId};
      && db.nextId in kept && kept <= all && |kept| == Min(20, |all|)
      && forall i <- kept, j <- all - kept :: j < i
  {
    var all := db.CastsOf(user) - db.Dead(now) + {db.nextId};
    var before := BeforeTrim(db, user, sender, library, path, now);
    BeforeTrimIsValid(db, user, sender, library, path, now);
    assert before.CastsOf(user) == all;
    TrimKeepsNewest(before, user);
    var kept := before.Trimmed(user).CastsOf(user);
    assert db.nextId !in kept ==> db.nextId in all - kept;
    assert kept != {} by {
      SubsetSize({db.nextId}, all);
    }
  }

  lemma BeforeTrimIsValid(db: Db, user: Id, sender: Id, library: Id, path: string, now: Time)
    requires db.Valid() && sender in db.tokens && !db.tokens[sender].kind.Cast?
    ensures BeforeTrim(db, user, sender, library, path, now).Valid()
  {
    var p := db.Pruned(now);
    WithoutKeepsValid(db, db.Dead(now));
    InsertKeepsValid(p, CastToken(user, now));
    var more := BeforeTrim(db, user, sender, library, path, now);
    forall i <- more.grants ensures more.GrantIsSound(i) {
      if i != p.nextId {
        assert p.GrantIsSound(i);
      }
    }
  }

  lemma MintKeepsBounded(db: Db, user: Id, sender: Id, library: Id, path: string, now: Time)
    requires db.Valid() && sender in db.tokens && !db.tokens[sender].kind.Cast? && Bounded(db)
    requires db.Minted(user, sender, library, path, now).Some?
    ensures Bounded(db.Minted(user, sender, library, path, now).value)
  {
    var before := BeforeTrim(db, user, sender, library, path, now);
    BeforeTrimIsValid(db, user, sender, library, path, now);
    TrimKeepsNewest(before, user);
    forall other: Id ensures |before.Trimmed(user).CastsOf(other)| <= 20 {
      if other != user {
        SubsetSize(before.CastsOf(other), db.CastsOf(other));
      }
    }
  }

  lemma StepKeepsBounded(db: Db, e: Event)
    requires db.Valid() && Allowed(db, e) && Bounded(db)
    ensures Bounded(After(db, e))
  {
    match e.op
    case Ask(_) =>
    case Mint(user, sender, library, path) =>
      if db.Minted(user, sender, library, path, e.now).Some? {
        MintKeepsBounded(db, user, sender, library, path, e.now);
      }
    case _ =>
      FewerCasts(db, After(db, e));
  }

  /** In every run no person ever holds more than 20 cast tokens. */
  lemma {:induction false} NeverMoreThanTwenty(db: Db, events: seq<Event>, from: Time)
    requires db.Valid() && Bounded(db) && IsRun(db, events, from)
    ensures Run(db, events).Valid() && Bounded(Run(db, events))
    decreases |events|
  {
    if events != [] {
      StepKeepsValid(db, events[0]);
      StepKeepsBounded(db, events[0]);
      NeverMoreThanTwenty(After(db, events[0]), events[1..], events[0].now);
    }
  }

  /**
   * A minted token answers, from its mint on, exactly while its person is enabled, its own expiry
   * and its sender's have not passed and its sender is signed in, for its own book, as its sender.
   */
  lemma MintedAnswers(db: Db, user: Id, sender: Id, library: Id, path: string, now: Time, r: Request, t: Time)
    requires db.Valid() && sender in db.tokens && !db.tokens[sender].kind.Cast?
    requires db.Minted(user, sender, library, path, now).Some? && r.id == db.nextId
    ensures db.Minted(user, sender, library, path, now).value.Resolve(r, t) ==
      if && Cast in r.kinds && !db.users[user].disabled
         && !PastExpiry(Some(Stamp(now + 24 * 3600 * SECOND)), t)
         && !db.tokens[sender].revoked && !PastExpiry(db.tokens[sender].expires, t)
         && r.media.Some? && Covers(Grant(library, path, sender), r.media.value)
      then Accepted(user, sender) else Invalid
  {
    MintKeepsNewest(db, user, sender, library, path, now);
    var m := db.Minted(user, sender, library, path, now).value;
    assert m.tokens[r.id] == CastToken(user, now);
    assert sender in m.tokens && m.tokens[sender] == db.tokens[sender];
    assert r.id in m.grants && m.grants[r.id] == Grant(library, path, sender);
  }

  // ------------------------------------------------------------------------ signed out for good

  /** The token has been handed out, and is gone or revoked. */
  predicate IsOut(db: Db, sender: Id) {
    sender < db.nextId && (sender in db.tokens ==> db.tokens[sender].revoked)
  }

  /** i was handed out as a cast token of sender, whether or not it is still there. */
  predicate SentBy(db: Db, i: Id, sender: Id) {
    && i < db.nextId
    && (i in db.tokens ==> db.tokens[i].kind.Cast?)
    && (i in db.grants ==> db.grants[i].parent == sender)
  }

  lemma OutIsRefused(db: Db, sender: Id, r: Request, t: Time)
    requires IsOut(db, sender)
    ensures db.Resolve(r, t).Accepted? ==> db.Resolve(r, t).device != sender
    ensures SentBy(db, r.id, sender) ==> db.Resolve(r, t) == Invalid
  {
  }

  lemma StepKeepsOut(db: Db, sender: Id, e: Event)
    requires IsOut(db, sender)
    ensures IsOut(After(db, e), sender)
  {
  }

  lemma StepKeepsSentBy(db: Db, i: Id, sender: Id, e: Event)
    requires SentBy(db, i, sender)
    ensures SentBy(After(db, e), i, sender)
  {
  }

  lemma {:induction false} RunKeepsOut(db: Db, sender: Id, i: Id, events: seq<Event>)
    requires IsOut(db, sender)
    ensures IsOut(Run(db, events), sender)
    ensures SentBy(db, i, sender) ==> SentBy(Run(db, events), i, sender)
    decreases |events|
  {
    if events != [] {
      StepKeepsOut(db, sender, events[0]);
      if SentBy(db, i, sender) {
        StepKeepsSentBy(db, i, sender, events[0]);
      }
      RunKeepsOut(After(db, events[0]), sender, i, events[1..]);
    }
  }

  /**
   * Once a device is signed out, no request is ever again accepted as that device, nor as a
   * member's made on it: its own token, every cast token it has sent, and any it yet sends are
   * refused, whatever happens next.
   */
  lemma {:induction false} SignedOutIsForGood(db: Db, i: Id, owner: Id, also: bool, sender: Id, events: seq<Event>,
                                              r: Request, t: Time)
    requires db.Valid() && db.MaySignOut(i, owner)
    requires sender == i || (also && owner != 0 && sender in db.tokens && db.MadeOn(sender, i, owner))
    ensures
      var later := Run(db.SignedOut(i, owner, also), events);
      && (later.Resolve(r, t).Accepted? ==> later.Resolve(r, t).device != sender)
      && (r.id in db.grants && db.grants[r.id].parent == sender ==> later.Resolve(r, t) == Invalid)
  {
    var out := db.SignedOut(i, owner, also);
    if r.id in db.grants {
      assert db.GrantIsSound(r.id);
    }
    RunKeepsOut(out, sender, r.id, events);
    OutIsRefused(Run(out, events), sender, r, t);
  }

  /** A sign-out revokes what it names and nothing else, and forgets one browser's key. */
  lemma SignOutTouchesOnly(db: Db, i: Id, owner: Id, also: bool, j: Id)
    requires db.MaySignOut(i, owner) && j in db.tokens
    ensures var t, was := db.SignedOut(i, owner, also).tokens[j], db.tokens[j];
      && (t.revoked <==> was.revoked || j == i || (also && owner != 0 && db.MadeOn(j, i, owner)))
      && (t.signInKey != was.signInKey <==> was.signInKey != "" && db.SameBrowser(j, i))
      && t.(revoked := was.revoked, signInKey := was.signInKey) == was
  {
  }
}
