/**
 * One cast token from its mint on (internal/auth/cast.go:22-33, 75-99): after any run of other
 * operations, exactly when it is accepted.
 */
module CastLife {
  import opened Basics
  import opened CastTokens
  import opened CastRuns

  /** A minted token: its id, its row and grant, and when its sender expires. */
  datatype Sent = Sent(id: Id, token: Token, grant: Grant, senderExpires: Option<int>) {
    /** As a mint makes it. */
    predicate Valid() {
      token.kind.Cast? && !token.revoked && token.signInKey == "" && token.createdOn.None?
    }
  }

  /** The person's cast tokens minted after it. */
  function Newer(d: Db, c: Sent): set<Id> {
    set j | j in d.CastsOf(c.token.user) && j > c.id
  }

  /** Its own expiry or its sender's has lapsed, or its sender is signed out. */
  predicate Ended(d: Db, c: Sent, now: Time)
    requires c.grant.parent in d.tokens
  {
    Lapsed(c.token.expires, now) || d.tokens[c.grant.parent].revoked || Lapsed(c.senderExpires, now)
  }

  /** Its sender is there, and it is either there unchanged or was deleted when it had ended. */
  ghost predicate Remains(d: Db, c: Sent, now: Time) {
    && d.Valid() && c.Valid() && c.id < d.nextId
    && c.grant.parent in d.tokens
    && !d.tokens[c.grant.parent].kind.Cast? && d.tokens[c.grant.parent].expires == c.senderExpires
    && (c.id in d.tokens ==> d.tokens[c.id] == c.token && c.id in d.grants && d.grants[c.id] == c.grant)
    && (c.id !in d.tokens ==> Ended(d, c, now))
  }

  /** At most mints of the person's cast tokens are newer. */
  ghost predicate Follows(d: Db, c: Sent, mints: nat) {
    |Newer(d, c)| <= mints
  }

  lemma FewerFollow(d: Db, e: Db, c: Sent, mints: nat)
    requires Follows(d, c, mints) && Newer(e, c) <= Newer(d, c)
    ensures Follows(e, c, mints)
  {
    SubsetSize(Newer(e, c), Newer(d, c));
  }

  lemma LaterRemains(d: Db, c: Sent, now: Time, later: Time)
    requires Remains(d, c, now) && now <= later
    ensures Remains(d, c, later)
  {
    ExpiryIsForGood(c.token.expires, now, later);
    ExpiryIsForGood(c.senderExpires, now, later);
  }

  lemma SignInRemains(d: Db, c: Sent, now: Time, t: Token, mints: nat)
    requires Remains(d, c, now) && Follows(d, c, mints) && !t.kind.Cast?
    ensures Remains(d.Inserted(t), c, now) && Follows(d.Inserted(t), c, mints)
  {
    InsertKeepsValid(d, t);
    assert Newer(d.Inserted(t), c) == Newer(d, c);
  }

  lemma PruneRemains(d: Db, c: Sent, now: Time, mints: nat)
    requires Remains(d, c, now) && Follows(d, c, mints)
    ensures Remains(d.Pruned(now), c, now) && Follows(d.Pruned(now), c, mints)
  {
    WithoutKeepsValid(d, d.Dead(now));
    FewerFollow(d, d.Pruned(now), c, mints);
  }

  lemma SignOutRemains(d: Db, c: Sent, now: Time, i: Id, owner: Id, also: bool, mints: nat)
    requires Remains(d, c, now) && Follows(d, c, mints) && d.MaySignOut(i, owner)
    ensures Remains(d.SignedOut(i, owner, also), c, now) && Follows(d.SignedOut(i, owner, also), c, mints)
  {
    SignOutKeepsValid(d, i, owner, also);
    assert Newer(d.SignedOut(i, owner, also), c) == Newer(d, c);
  }

  /** The person's next mint is newer. */
  lemma InsertFollows(d: Db, c: Sent, now: Time, user: Id, g: Grant, mints: nat)
    requires d.Valid() && c.id < d.nextId && Follows(d, c, mints)
    ensures var more := d.Inserted(CastToken(user, now)).Granted(d.nextId, g);
      Follows(more, c, mints + if user == c.token.user then 1 else 0)
  {
    InsertKeepsValid(d, CastToken(user, now));
    var more := d.Inserted(CastToken(user, now)).Granted(d.nextId, g);
    assert Newer(more, c) == if user == c.token.user then Newer(d, c) + {d.nextId} else Newer(d, c);
  }

  lemma InsertRemains(d: Db, c: Sent, now: Time, user: Id, g: Grant)
    requires Remains(d, c, now) && g.parent in d.tokens && !d.tokens[g.parent].kind.Cast?
    ensures Remains(d.Inserted(CastToken(user, now)).Granted(d.nextId, g), c, now)
  {
    var more := d.Inserted(CastToken(user, now)).Granted(d.nextId, g);
    InsertKeepsValid(d, CastToken(user, now));
    forall i <- more.grants ensures more.GrantIsSound(i) {
      assert i != d.nextId ==> d.GrantIsSound(i);
    }
  }

  /** Fewer than MAX_CAST_TOKENS newer ones, a trim leaves it. */
  lemma TrimRemains(d: Db, c: Sent, now: Time, user: Id, mints: nat)
    requires Remains(d, c, now) && Follows(d, c, mints) && mints < MAX_CAST_TOKENS
    ensures Remains(d.Trimmed(user), c, now) && Follows(d.Trimmed(user), c, mints)
  {
    var all := d.CastsOf(user);
    var kept := Newest(all, MAX_CAST_TOKENS, d.nextId);
    WithoutKeepsValid(d, all - kept);
    FewerFollow(d, d.Trimmed(user), c, mints);
    if c.id in all {
      NewestHold(d, c, kept);
    }
  }

  lemma NewestHold(d: Db, c: Sent, kept: set<Id>)
    requires d.Valid() && c.id in d.CastsOf(c.token.user)
    requires kept == Newest(d.CastsOf(c.token.user), MAX_CAST_TOKENS, d.nextId)
    requires |Newer(d, c)| < MAX_CAST_TOKENS
    ensures c.id in kept
  {
    var all := d.CastsOf(c.token.user);
    NewestAreNewest(all, MAX_CAST_TOKENS, d.nextId);
    assert c.id !in kept ==> c.id in all - kept;
    PartSize(kept, Newer(d, c));
    PartSize(kept, all - {c.id});
  }

  lemma PartSize(a: set<Id>, b: set<Id>)
    ensures a <= b ==> |a| <= |b|
  {
    if a <= b {
      SubsetSize(a, b);
    }
  }

  lemma MintRemains(d: Db, c: Sent, now: Time, user: Id, sender: Id, library: Id, path: string, mints: nat)
    requires Remains(d, c, now) && Follows(d, c, mints) && sender in d.tokens && !d.tokens[sender].kind.Cast?
    requires mints + (if user == c.token.user then 1 else 0) < MAX_CAST_TOKENS
    ensures var m := d.Minted(user, sender, library, path, now).GetOr(d);
      Remains(m, c, now) && Follows(m, c, mints + if user == c.token.user then 1 else 0)
  {
    var p, g := d.Pruned(now), Grant(library, path, sender);
    PruneRemains(d, c, now, mints);
    InsertFollows(p, c, now, user, g, mints);
    InsertRemains(p, c, now, user, g);
    var more := p.Inserted(CastToken(user, now)).Granted(p.nextId, g);
    TrimRemains(more, c, now, user, mints + if user == c.token.user then 1 else 0);
  }

  /** Whether an event is a mint for its person. */
  function MintOf(e: Event, c: Sent): nat {
    if e.op.Mint? && e.op.user == c.token.user then 1 else 0
  }

  lemma StepRemains(d: Db, e: Event, c: Sent, now: Time, mints: nat)
    requires Remains(d, c, now) && Follows(d, c, mints) && now <= e.now && Allowed(d, e)
    requires mints + MintOf(e, c) < MAX_CAST_TOKENS
    ensures Remains(After(d, e), c, e.now) && Follows(After(d, e), c, mints + MintOf(e, c))
  {
    LaterRemains(d, c, now, e.now);
    match e.op
    case Ask(_) =>
    case SignIn(user, kind, expires, key, createdOn) =>
      SignInRemains(d, c, e.now, Token(user, kind, expires, false, key, createdOn), mints);
    case Mint(user, sender, library, path) =>
      MintRemains(d, c, e.now, user, sender, library, path, mints);
    case Prune =>
      PruneRemains(d, c, e.now, mints);
    case SignOut(i, owner, also) =>
      if d.MaySignOut(i, owner) {
        SignOutRemains(d, c, e.now, i, owner, also, mints);
      }
  }

  /** How many mints for its person events hold. */
  function MintsOf(events: seq<Event>, c: Sent): nat {
    if events == [] then 0 else MintOf(events[0], c) + MintsOf(events[1..], c)
  }

  function LastOf(events: seq<Event>, from: Time): Time {
    if events == [] then from else LastOf(events[1..], events[0].now)
  }

  lemma {:induction false} RunRemains(d: Db, events: seq<Event>, c: Sent, from: Time, mints: nat)
    requires Remains(d, c, from) && Follows(d, c, mints) && IsRun(d, events, from)
    requires mints + MintsOf(events, c) < MAX_CAST_TOKENS
    ensures Remains(Run(d, events), c, LastOf(events, from)) && Run(d, events).users == d.users
    decreases |events|
  {
    if events != [] {
      var e := events[0];
      StepRemains(d, e, c, from, mints);
      RunRemains(After(d, e), events[1..], c, e.now, mints + MintOf(e, c));
    }
  }

  /** While it remains, and after the last operation, it answers by its row, its sender's and its grant. */
  lemma RemainsAnswers(d: Db, c: Sent, now: Time, r: Request, t: Time)
    requires Remains(d, c, now) && now < t && r.id == c.id && c.token.user in d.users
    ensures d.Resolve(r, t) ==
      if && Cast in r.kinds && !d.users[c.token.user].disabled
         && !PastExpiry(c.token.expires, t)
         && !d.tokens[c.grant.parent].revoked && !PastExpiry(c.senderExpires, t)
         && r.media.Some? && Covers(c.grant, r.media.value)
      then Accepted(c.token.user, c.grant.parent) else Invalid
  {
    ExpiryIsForGood(c.token.expires, now, t);
    ExpiryIsForGood(c.senderExpires, now, t);
  }

  /** What a mint at now makes. */
  function SentAt(db: Db, user: Id, sender: Id, library: Id, path: string, now: Time): Sent
    requires sender in db.tokens
  {
    Sent(db.nextId, CastToken(user, now), Grant(library, path, sender), db.tokens[sender].expires)
  }

  lemma MintStarts(db: Db, user: Id, sender: Id, library: Id, path: string, now: Time)
    requires db.Valid() && sender in db.tokens && !db.tokens[sender].kind.Cast?
    requires db.Minted(user, sender, library, path, now).Some?
    ensures var m, c := db.Minted(user, sender, library, path, now).value, SentAt(db, user, sender, library, path, now);
      Remains(m, c, now) && Follows(m, c, 0) && m.users == db.users && user in m.users
      && m.tokens[sender] == db.tokens[sender]
  {
    var m, c := db.Minted(user, sender, library, path, now).value, SentAt(db, user, sender, library, path, now);
    MintKeepsValid(db, user, sender, library, path, now);
    MintKeepsNewest(db, user, sender, library, path, now);
    assert m.nextId == db.nextId + 1;
    assert Newer(m, c) == {};
  }

  /**
   * Main result: through any later run with fewer than 20 more mints for its person, a
   * minted token is accepted, at any later instant, exactly while its person is enabled, neither
   * its own expiry nor its sender's is past and its sender is signed in, for its own book, as its
   * sender.
   */
  lemma {:induction false} MintedAnswersLater(db: Db, user: Id, sender: Id, library: Id, path: string, now: Time,
                           events: seq<Event>, r: Request, t: Time)
    requires db.Valid() && sender in db.tokens && !db.tokens[sender].kind.Cast?
    requires var m := db.Minted(user, sender, library, path, now); m.Some? && IsRun(m.value, events, now)
    requires MintsOf(events, SentAt(db, user, sender, library, path, now)) < 20
    requires r.id == db.nextId && LastOf(events, now) < t
    ensures var later := Run(db.Minted(user, sender, library, path, now).value, events);
      && user in later.users && sender in later.tokens
      && later.Resolve(r, t) ==
        if && Cast in r.kinds && !later.users[user].disabled
           && !PastExpiry(Some(Stamp(now + 24 * 3600 * SECOND)), t)
           && !later.tokens[sender].revoked && !PastExpiry(db.tokens[sender].expires, t)
           && r.media.Some? && Covers(Grant(library, path, sender), r.media.value)
        then Accepted(user, sender) else Invalid
  {
    var m, c := db.Minted(user, sender, library, path, now).value, SentAt(db, user, sender, library, path, now);
    MintStarts(db, user, sender, library, path, now);
    RunRemains(m, events, c, now, 0);
    RemainsAnswers(Run(m, events), c, LastOf(events, now), r, t);
  }
}
