/**
 * Cast tokens (internal/auth/cast.go:70-166): a token that plays one book, minted by a session and
 * dying with it. The token table and its grants, with the statements that touch them: minting,
 * pruning the dead, signing a device out (internal/auth/devices.go:177-223) and the check of a
 * request's token (internal/auth/auth.go:486-498 and 545-603).
 */
module CastTokens {
  import opened Basics
  import opened HttpText
  import opened TextLaws

  const SECOND: int := 1_000_000_000
  const CAST_TOKEN_TTL: int := 24 * 60 * 60 * SECOND
  const MAX_CAST_TOKENS: nat := 20

  type Id = int

  /** An instant, in nanoseconds. */
  type Time = int

  datatype Kind = Session | Pairing | Api | Cast | Bridge | Feed

  datatype User = User(disabled: bool, admin: bool, managedBy: Id, name: string)

  /** expires is the stored stamp, in whole seconds; None is NULL. */
  datatype Token = Token(user: Id, kind: Kind, expires: Option<int>, revoked: bool, signInKey: string,
                         createdOn: Option<Id>) {
    predicate IsDevice() { kind.Session? || kind.Api? }
  }

  datatype Grant = Grant(library: Id, path: string, parent: Id)

  datatype Media = Media(library: Id, path: string)

  /** A request presenting the token with this id, to a route accepting these kinds; media for a
      book's cover or stream. */
  datatype Request = Request(id: Id, kinds: set<Kind>, media: Option<Media>)

  datatype Outcome = Invalid | Accepted(user: Id, device: Id)

  /** s.ts(): RFC 3339, so cut to the second. */
  function Stamp(now: Time): int {
    now / SECOND
  }

  /** expires_at <= ?1 in SQL. */
  predicate Lapsed(expires: Option<int>, now: Time) {
    expires.Some? && expires.value <= Stamp(now)
  }

  /** s.now().After(t): the expiry's own instant is not past it. */
  predicate PastExpiry(expires: Option<int>, now: Time) {
    expires.Some? && now > expires.value * SECOND
  }

  predicate ExpiresAt(expires: Option<int>, now: Time) {
    expires.Some? && expires.value * SECOND == now
  }

  lemma LapsedOrPast(expires: Option<int>, now: Time)
    ensures Lapsed(expires, now) <==> PastExpiry(expires, now) || ExpiresAt(expires, now)
  {
  }

  lemma ExpiryIsForGood(expires: Option<int>, now: Time, later: Time)
    requires now <= later
    ensures Lapsed(expires, now) ==> Lapsed(expires, later)
    ensures Lapsed(expires, now) && now < later ==> PastExpiry(expires, later)
  {
  }

  // ------------------------------------------------------------------------ what a grant reaches

  /** strings.HasPrefix */
  predicate HasPrefix(s: string, prefix: string) {
    |prefix| <= |s| && s[..|prefix|] == prefix
  }

  predicate Within(root: string, p: string) {
    root == "" || p == root || HasPrefix(p, root + "/")
  }

  predicate Covers(g: Grant, m: Media) {
    g.library == m.library && g.path != "" && m.path != "" && Within(g.path, m.path)
  }

  lemma {:induction false} PrefixSplits(root: string, p: string)
    requires HasPrefix(p, root + "/")
    ensures Split(root, '/') <= Split(p, '/')
  {
    var below := p[|root| + 1..];
    assert p == root + "/" + below;
    SplitConcat(root, below, '/');
  }

  lemma {:induction false} JoinPrefix(r: seq<string>, s: seq<string>)
    requires r != [] && r <= s
    ensures Join(s, '/') == Join(r, '/') || HasPrefix(Join(s, '/'), Join(r, '/') + "/")
  {
    if |r| < |s| {
      JoinConcat(r, s[|r|..], '/');
      assert s == r + s[|r|..];
    } else {
      assert r == s;
    }
  }

  lemma {:induction false} SplitPrefixes(root: string, p: string)
    requires Split(root, '/') <= Split(p, '/')
    ensures p == root || HasPrefix(p, root + "/")
  {
    JoinSplit(root, '/');
    JoinSplit(p, '/');
    JoinPrefix(Split(root, '/'), Split(p, '/'));
  }

  /** A literal prefix with a slash is a prefix of whole segments: a grant reaches its book's own
      path and what lies below it, and nothing else. */
  lemma CoversWholeSegments(g: Grant, m: Media)
    ensures Covers(g, m) <==>
      g.library == m.library && g.path != "" && m.path != "" && Split(g.path, '/') <= Split(m.path, '/')
  {
    if HasPrefix(m.path, g.path + "/") {
      PrefixSplits(g.path, m.path);
    }
    if Split(g.path, '/') <= Split(m.path, '/') {
      SplitPrefixes(g.path, m.path);
    }
  }

  // ------------------------------------------------------------------------ the tables

  /** The n greatest of the ids below top, and all of them when they are fewer. */
  function Newest(ids: set<Id>, n: nat, top: nat): (kept: set<Id>)
    ensures kept <= ids
  {
    if n == 0 || top == 0 then {}
    else if top - 1 in ids then {top - 1} + Newest(ids - {top - 1}, n - 1, top - 1)
    else Newest(ids, n, top - 1)
  }

  lemma {:induction false} NewestAreNewest(ids: set<Id>, n: nat, top: nat)
    requires forall i <- ids :: 0 <= i < top
    ensures |Newest(ids, n, top)| == Min(n, |ids|)
    ensures forall i <- Newest(ids, n, top), j <- ids - Newest(ids, n, top) :: j < i
  {
    if top == 0 {
      assert forall i :: i !in ids;
      assert ids == {};
    } else if n > 0 && top - 1 in ids {
      var rest := ids - {top - 1};
      NewestAreNewest(rest, n - 1, top - 1);
      assert ids - Newest(ids, n, top) == rest - Newest(rest, n - 1, top - 1);
    } else if n > 0 {
      NewestAreNewest(ids, n, top - 1);
    }
  }

  datatype Db = Db(users: map<Id, User>, tokens: map<Id, Token>, grants: map<Id, Grant>, nextId: nat) {

    /** Ids are handed out in order and never again, a grant belongs to a cast token and names a
        parent that is there and is not a cast token itself. */
    ghost predicate Valid() {
      && 0 < nextId && (forall i <- tokens :: 0 < i < nextId)
      && (forall i <- grants :: GrantIsSound(i))
    }

    predicate GrantIsSound(i: Id)
      requires i in grants
    {
      && i in tokens && tokens[i].kind.Cast?
      && grants[i].parent in tokens && !tokens[grants[i].parent].kind.Cast?
    }

    /** lookupToken with checkToken. */
    function Resolve(r: Request, now: Time): Outcome {
      if r.id !in tokens || tokens[r.id].kind !in r.kinds || tokens[r.id].user !in users then Invalid
      else
        var t := tokens[r.id];
        if t.revoked || users[t.user].disabled || PastExpiry(t.expires, now) then Invalid
        else if t.kind.Cast? then
          if r.id !in grants || grants[r.id].parent !in tokens then Invalid
          else
            var parent := tokens[grants[r.id].parent];
            if parent.revoked || PastExpiry(parent.expires, now) then Invalid
            else if r.media.None? || !Covers(grants[r.id], r.media.value) then Invalid
            else Accepted(t.user, grants[r.id].parent)
        else if t.kind.Bridge? && !users[t.user].admin then Invalid
        else Accepted(t.user, r.id)
    }

    /** The condition of pruneCastTokensSQL. */
    predicate IsDead(i: Id, now: Time)
      requires i in tokens
    {
      tokens[i].kind.Cast? &&
      (Lapsed(tokens[i].expires, now) || !HasLiveParent(i, now))
    }

    predicate HasLiveParent(i: Id, now: Time) {
      && i in grants && grants[i].parent in tokens
      && !tokens[grants[i].parent].revoked && !Lapsed(tokens[grants[i].parent].expires, now)
    }

    function Dead(now: Time): set<Id> {
      set i | i in tokens && IsDead(i, now)
    }

    /** DELETE FROM tokens, with the grants that cascade: a token's own, and those it is a parent of. */
    function Without(gone: set<Id>): Db {
      this.(tokens := tokens - gone,
            grants := map i | i in grants && i !in gone && grants[i].parent !in gone :: grants[i])
    }

    function Pruned(now: Time): Db {
      Without(Dead(now))
    }

    function CastsOf(user: Id): set<Id> {
      set i | i in tokens && tokens[i].kind.Cast? && tokens[i].user == user
    }

    /** All a person's cast tokens but the newest MAX_CAST_TOKENS deleted. */
    function Trimmed(user: Id): Db {
      Without(CastsOf(user) - Newest(CastsOf(user), MAX_CAST_TOKENS, nextId))
    }

    function Inserted(t: Token): Db {
      this.(tokens := tokens[nextId := t], nextId := nextId + 1)
    }

    function Granted(i: Id, g: Grant): Db {
      this.(grants := grants[i := g])
    }

    /** IssueCastToken: None when it fails, the tables untouched; else they gain the token nextId. */
    function Minted(user: Id, parent: Id, library: Id, path: string, now: Time): Option<Db> {
      var p := Pruned(now);
      if user <= 0 || parent <= 0 || library <= 0 || path == "" then None
      else if user !in users || parent !in p.tokens then None  // a foreign key refuses the row
      else Some(p.Inserted(CastToken(user, now)).Granted(nextId, Grant(library, path, parent)).Trimmed(user))
    }

    predicate MaySignOut(i: Id, owner: Id) {
      i in tokens && tokens[i].IsDevice() && !tokens[i].revoked && (owner == 0 || tokens[i].user == owner)
    }

    /** The tokens a sign-out of i takes along: the owner's members', made on it. */
    predicate MadeOn(j: Id, i: Id, owner: Id)
      requires j in tokens
    {
      && tokens[j].createdOn == Some(i) && tokens[j].IsDevice() && !tokens[j].revoked
      && tokens[j].user in users && users[tokens[j].user].managedBy == owner
    }

    /** The tokens of the same person carrying the same browser's key as i. */
    predicate SameBrowser(j: Id, i: Id)
      requires j in tokens && i in tokens
    {
      tokens[j].user == tokens[i].user && tokens[j].signInKey == tokens[i].signInKey
    }

    /** What a sign-out of i makes of the token j. */
    function SignOutOf(j: Id, i: Id, owner: Id, alsoMembers: bool): Token
      requires i in tokens && j in tokens
    {
      var t := if SameBrowser(j, i) then tokens[j].(signInKey := "") else tokens[j];
      if j == i || (alsoMembers && owner != 0 && MadeOn(j, i, owner)) then t.(revoked := true) else t
    }

    /** revokeDeviceTx on a device it may sign out. */
    function SignedOut(i: Id, owner: Id, alsoMembers: bool): Db
      requires i in tokens
    {
      this.(tokens := map j | j in tokens :: SignOutOf(j, i, owner, alsoMembers))
    }

    /** The members' tokens a sign-out of i takes along, and their usernames. */
    function TakenAlong(i: Id, owner: Id): set<Id> {
      set j | j in tokens && j != i && MadeOn(j, i, owner)
    }

    function Made(i: Id, owner: Id): set<Id> {
      set j | j in tokens && MadeOn(j, i, owner)
    }

    function MembersSignedOut(i: Id, owner: Id): Db {
      this.(tokens := map j | j in tokens :: if MadeOn(j, i, owner) then tokens[j].(revoked := true) else tokens[j])
    }

    function MembersOn(i: Id, owner: Id, alsoMembers: bool): set<string> {
      if !alsoMembers || owner == 0 then {}
      else Names(TakenAlong(i, owner))
    }

    function Names(ids: set<Id>): set<string> {
      set j | j in ids && j in tokens && tokens[j].user in users :: users[tokens[j].user].name
    }
  }

  lemma SameNames(a: Db, b: Db, ids: set<Id>)
    requires a.users == b.users
    requires forall j <- ids :: j in a.tokens && j in b.tokens && a.tokens[j].user == b.tokens[j].user
    ensures a.Names(ids) == b.Names(ids)
  {
    forall x ensures x in a.Names(ids) <==> x in b.Names(ids) {
      if x in a.Names(ids) {
        var j :| j in ids && j in a.tokens && a.tokens[j].user in a.users && a.users[a.tokens[j].user].name == x;
        assert b.users[b.tokens[j].user].name == x;
      }
      if x in b.Names(ids) {
        var j :| j in ids && j in b.tokens && b.tokens[j].user in b.users && b.users[b.tokens[j].user].name == x;
        assert a.users[a.tokens[j].user].name == x;
      }
    }
  }

  /** The row a mint inserts, good for CAST_TOKEN_TTL, cut to the second. */
  function CastToken(user: Id, now: Time): Token {
    Token(user, Cast, Some(Stamp(now + CAST_TOKEN_TTL)), false, "", None)
  }

  // ------------------------------------------------------------------------ the statements

  class Service {
    const users: map<Id, User>
    var tokens: map<Id, Token>
    var grants: map<Id, Grant>
    var nextId: nat

    ghost function State(): Db
      reads this
    {
      Db(users, tokens, grants, nextId)
    }

    constructor (users: map<Id, User>)
      ensures State() == Db(users, map[], map[], 1)
    {
      this.users, tokens, grants, nextId := users, map[], map[], 1;
    }

    method Delete(gone: set<Id>)
      modifies this`tokens, this`grants
      ensures State() == old(State()).Without(gone)
    {
      tokens := tokens - gone;
      grants := map i | i in grants && i !in gone && grants[i].parent !in gone :: grants[i];
    }

    method PruneCastTokens(now: Time)
      modifies this`tokens, this`grants
      ensures State() == old(State()).Pruned(now)
    {
      var db := Db(users, tokens, grants, nextId);
      Delete(db.Dead(now));
    }

    /** In one transaction: what a failure leaves is what was there. */
    method IssueCastToken(user: Id, parent: Id, library: Id, path: string, now: Time) returns (id: Option<Id>)
      modifies this
      ensures var was := old(State()).Minted(user, parent, library, path, now);
        if was.Some? then id == Some(old(nextId)) && State() == was.value else id == None && State() == old(State())
    {
      if user <= 0 || parent <= 0 || library <= 0 || path == "" {
        return None;
      }
      var wereTokens, wereGrants := tokens, grants;
      PruneCastTokens(now);
      if user !in users || parent !in tokens {
        tokens, grants := wereTokens, wereGrants;
        return None;
      }
      id := Some(nextId);
      tokens := tokens[nextId := CastToken(user, now)];
      grants := grants[nextId := Grant(library, path, parent)];
      nextId := nextId + 1;
      var db := Db(users, tokens, grants, nextId);
      var mine := db.CastsOf(user);
      Delete(mine - Newest(mine, MAX_CAST_TOKENS, nextId));
    }

    /** The first two updates of revokeDeviceTx: the device's own token, and its browser's key. */
    method SignOutDevice(i: Id)
      requires i in tokens
      modifies this`tokens
      ensures State() == old(State()).SignedOut(i, 0, false)
    {
      tokens := tokens[i := tokens[i].(revoked := true)];
      var user, key := tokens[i].user, tokens[i].signInKey;
      tokens := map j | j in tokens :: j := Forgotten(tokens[j], user, key);
    }

    /** Its third: the members' tokens made on the device. */
    method SignOutMembers(i: Id, owner: Id) returns (members: seq<string>)
      modifies this`tokens
      ensures State() == old(State()).MembersSignedOut(i, owner)
      ensures Sorted(members) && Range(members) == old(State()).Names(old(State()).Made(i, owner))
    {
      var db := Db(users, tokens, grants, nextId);
      members := SortedOf(db.Names(db.Made(i, owner)));
      tokens := map j | j in tokens :: j := if db.MadeOn(j, i, owner) then tokens[j].(revoked := true) else tokens[j];
    }

    /** revokeDeviceTx: all of its updates, or ErrNotFound and none. */
    method RevokeDevice(i: Id, owner: Id, alsoMembers: bool) returns (members: Option<seq<string>>)
      modifies this`tokens
      ensures var db := old(State());
        if db.MaySignOut(i, owner)
        then
          && State() == db.SignedOut(i, owner, alsoMembers)
          && members.Some? && Sorted(members.value) && Range(members.value) == db.MembersOn(i, owner, alsoMembers)
        else State() == db && members == None
    {
      ghost var was := State();
      if !Db(users, tokens, grants, nextId).MaySignOut(i, owner) {
        return None;
      }
      SignOutDevice(i);
      if !alsoMembers || owner == 0 {
        SignOutAlone(was, i, owner, alsoMembers);
        return Some([]);
      }
      var names := SignOutMembers(i, owner);
      SignOutInTwo(was, i, owner);
      members := Some(names);
    }
  }

  lemma SignOutAlone(db: Db, i: Id, owner: Id, alsoMembers: bool)
    requires i in db.tokens && (!alsoMembers || owner == 0)
    ensures db.SignedOut(i, owner, alsoMembers) == db.SignedOut(i, 0, false)
  {
  }

  lemma SignOutInTwo(db: Db, i: Id, owner: Id)
    requires i in db.tokens && owner != 0
    ensures db.SignedOut(i, 0, false).MembersSignedOut(i, owner) == db.SignedOut(i, owner, true)
    ensures var mid := db.SignedOut(i, 0, false); mid.Names(mid.Made(i, owner)) == db.MembersOn(i, owner, true)
  {
    var mid := db.SignedOut(i, 0, false);
    assert forall j <- db.tokens :: mid.MadeOn(j, i, owner) <==> j != i && db.MadeOn(j, i, owner);
    assert mid.MembersSignedOut(i, owner).tokens == db.SignedOut(i, owner, true).tokens;
    assert mid.Made(i, owner) == db.TakenAlong(i, owner);
    SameNames(mid, db, db.TakenAlong(i, owner));
  }

  /** The browser with this key forgotten, on a person's token that carries it. */
  function Forgotten(t: Token, user: Id, key: string): Token {
    if t.signInKey != "" && t.user == user && t.signInKey == key then t.(signInKey := "") else t
  }
}
