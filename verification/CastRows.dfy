/**
 * The cast-token statements and the sign-out, said of the rows of the tables themselves
 * (internal/auth/cast.go:65-166, internal/auth/devices.go:165-223, internal/auth/auth.go:545-603):
 * whose devices a person may sign out, what a prune leaves, when a mint succeeds and when a token
 * is accepted.
 */
module CastRows {
  import opened Basics
  import opened HttpText
  import opened CastTokens
  import opened CastRuns

  /** i names a live session or API key that owner may sign out: anyone's for 0, else their own. */
  predicate MaySignOutRow(db: Db, i: Id, owner: Id) {
    && i in db.tokens && !db.tokens[i].revoked
    && (db.tokens[i].kind == Session || db.tokens[i].kind == Api)
    && (owner == 0 || db.tokens[i].user == owner)
  }

  /** j is a live session or API key of a member owner manages, made on the device i. */
  predicate MemberRowOn(db: Db, j: Id, i: Id, owner: Id) {
    && j in db.tokens && j != i && !db.tokens[j].revoked
    && (db.tokens[j].kind == Session || db.tokens[j].kind == Api)
    && db.tokens[j].createdOn == Some(i)
    && db.tokens[j].user in db.users && db.users[db.tokens[j].user].managedBy == owner
  }

  /** A sign-out finds nothing to sign out, and changes nothing, exactly when it names no such row. */
  lemma SignOutRefusedExactly(db: Db, i: Id, owner: Id, also: bool, now: Time)
    ensures Says(db, At(now, SignOut(i, owner, also))) == Gone(None) <==> !MaySignOutRow(db, i, owner)
    ensures !MaySignOutRow(db, i, owner) ==> After(db, At(now, SignOut(i, owner, also))) == db
  {
  }

  /**
   * Whose devices a sign-out reaches: a live token is revoked exactly when it is the one named, and
   * the owner's own unless owner is 0, or that one is and it is a member's made on it.
   */
  lemma SignOutReaches(db: Db, i: Id, owner: Id, also: bool, now: Time, j: Id)
    requires j in db.tokens
    ensures var t, may := After(db, At(now, SignOut(i, owner, also))).tokens, MaySignOutRow(db, i, owner);
      var reached := j == i || (also && owner != 0 && MemberRowOn(db, j, i, owner));
      j in t && (t[j].revoked <==> db.tokens[j].revoked || (may && reached))
  {
  }

  /** Whose browser it forgets: the person's tokens that carry the device's key, and no others. */
  lemma SignOutForgets(db: Db, i: Id, owner: Id, also: bool, now: Time, j: Id)
    requires j in db.tokens
    ensures var t, was := After(db, At(now, SignOut(i, owner, also))).tokens[j], db.tokens[j];
      t.signInKey ==
        if MaySignOutRow(db, i, owner) && was.user == db.tokens[i].user && was.signInKey == db.tokens[i].signInKey
        then "" else was.signInKey
  {
  }

  /** The usernames answered are those of the members it signed out. */
  lemma SignOutNames(db: Db, i: Id, owner: Id, also: bool, now: Time, name: string)
    requires MaySignOutRow(db, i, owner)
    ensures var said := Says(db, At(now, SignOut(i, owner, also)));
      && said.Gone? && said.members.Some?
      && (name in said.members.value <==>
            also && owner != 0 && exists j :: MemberRowOn(db, j, i, owner) && db.users[db.tokens[j].user].name == name)
  {
    if also && owner != 0 {
      var names := db.Names(db.TakenAlong(i, owner));
      forall j | MemberRowOn(db, j, i, owner) ensures j in db.TakenAlong(i, owner) {
      }
      if name in names {
        var j :| j in db.TakenAlong(i, owner) && db.users[db.tokens[j].user].name == name;
        assert MemberRowOn(db, j, i, owner);
      }
    }
  }

  /** A cast token's row is live: unexpired, with a grant whose sender is there, signed in and unexpired. */
  predicate LiveRow(db: Db, i: Id, now: Time)
    requires i in db.tokens
  {
    && (db.tokens[i].expires.Some? ==> db.tokens[i].expires.value * SECOND > now)
    && i in db.grants && db.grants[i].parent in db.tokens
    && var sender := db.tokens[db.grants[i].parent];
    && !sender.revoked && (sender.expires.Some? ==> sender.expires.value * SECOND > now)
  }

  /** A prune leaves no dead cast token behind, so no receiver's address or book outlives it, and
      nothing else is deleted. */
  lemma PruneExactly(db: Db, now: Time, i: Id)
    ensures i in db.Pruned(now).tokens <==> i in db.tokens && (db.tokens[i].kind.Cast? ==> LiveRow(db, i, now))
    ensures i in db.Pruned(now).tokens ==> db.Pruned(now).tokens[i] == db.tokens[i]
    ensures db.Valid() ==>
      (i in db.Pruned(now).grants <==> i in db.grants && i in db.Pruned(now).tokens)
  {
    if i in db.grants && db.Valid() {
      assert db.GrantIsSound(i);
    }
  }

  /** A mint succeeds exactly with a person, a sender and a book named, the person there, and the
      sender there once the dead cast tokens are gone. */
  lemma MintSucceedsExactly(db: Db, user: Id, sender: Id, library: Id, path: string, now: Time)
    ensures db.Minted(user, sender, library, path, now).Some? <==>
      && user > 0 && sender > 0 && library > 0 && path != ""
      && user in db.users && sender in db.tokens && (db.tokens[sender].kind.Cast? ==> LiveRow(db, sender, now))
  {
    PruneExactly(db, now, sender);
  }

  /** Any other token answers exactly while it is there, of a kind asked for, signed in and unexpired,
      and its person is enabled, and an admin for a Bridge's; media plays no part. */
  lemma DeviceAnswersExactly(db: Db, r: Request, t: Time)
    requires r.id in db.tokens && !db.tokens[r.id].kind.Cast?
    ensures var row := db.tokens[r.id];
      db.Resolve(r, t) ==
        if && row.kind in r.kinds && row.user in db.users && !row.revoked && !db.users[row.user].disabled
           && (row.expires.Some? ==> t <= row.expires.value * SECOND)
           && (row.kind == Bridge ==> db.users[row.user].admin)
        then Accepted(row.user, r.id) else Invalid
  {
  }

  /** A cast token is accepted only where cast tokens are, only for media, and only for its own book. */
  lemma CastNeedsItsBook(db: Db, r: Request, t: Time)
    requires r.id in db.tokens && db.tokens[r.id].kind.Cast? && db.Resolve(r, t).Accepted?
    ensures Cast in r.kinds && r.media.Some? && r.id in db.grants
    ensures r.media.value.library == db.grants[r.id].library
    ensures Split(db.grants[r.id].path, '/') <= Split(r.media.value.path, '/')
    ensures db.Resolve(r, t) == Accepted(db.tokens[r.id].user, db.grants[r.id].parent)
  {
    CoversWholeSegments(db.grants[r.id], r.media.value);
  }
}
