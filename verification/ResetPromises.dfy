/** What a password reset does, read off the rows: whom a request is for, until when its token works, whose
    password a confirmation changes, and what it leaves alone. */
module ResetPromises {
  import opened Domain
  import opened Strings
  import opened AccessTokens
  import opened Store
  import opened Flows
  import opened Plain

  // ---- The request ----

  /** A record of one hour, unused, for the account with these columns. */
  predicate ResetRowIs(p: PasswordReset, id: Text, raw: Text, userId: Option<Text>, adminId: Option<Text>, now: Time) {
    p == PasswordReset(id, Sha256(raw), userId, adminId, now, now + 3_600_000_000_000, None)
  }

  /** A request for a live user's email, or else for an admin's, adds one record and hands its token out with
      that account; for any other email it succeeds with nothing. */
  lemma RequestNamesTheAccount(db: Tables, email: string, id: Text, raw: Text, now: Time)
    ensures var e := TrimSpace(ToLower(email));
            var (d, r) := RequestPasswordReset(db, email, id, raw, now);
            if e == "" then d == db && r == Err(InvalidInput)
            else
              && (forall i: nat :: EmailUser(db, e, i) ==>
                    && r == Ok(Some(ForUser(raw, db.users[i])))
                    && OneReset(db, d, id, raw, Some(db.users[i].id), None, now))
              && (NoEmailUser(db, e) ==> forall i: nat :: EmailAdmin(db, e, i) ==>
                    && r == Ok(Some(ForAdmin(raw, db.admins[i])))
                    && OneReset(db, d, id, raw, None, Some(db.admins[i].id), now))
              && (NoEmailUser(db, e) && NoEmailAdmin(db, e) ==> d == db && r == Ok(None))
  {
    var e := TrimSpace(ToLower(email));
    forall i: nat | EmailUser(db, e, i)
      ensures FindUserByEmail(db.users, e) == Some(i)
    {
      EmailUserIsFound(db, e, i);
    }
    if NoEmailUser(db, e) {
      NoEmailUserIsFound(db, e);
      forall i: nat | EmailAdmin(db, e, i)
        ensures FindAdminByEmail(db.admins, e) == Some(i)
      {
        EmailAdminIsFound(db, e, i);
      }
      if NoEmailAdmin(db, e) {
        NoEmailAdminIsFound(db, e);
      }
    }
  }

  ghost predicate OneReset(db: Tables, d: Tables, id: Text, raw: Text, userId: Option<Text>, adminId: Option<Text>,
                           now: Time) {
    && d == db.(resets := d.resets) && |d.resets| == |db.resets| + 1 && d.resets[..|db.resets|] == db.resets
    && ResetRowIs(d.resets[|db.resets|], id, raw, userId, adminId, now)
  }

  // ---- The confirmation: when it is refused ----

  /** A used record, and one past its expiry; at its expiry it still works. */
  predicate Spent(p: PasswordReset, now: Time) {
    p.usedAt.Some? || p.expiresAt < now
  }

  /** Nothing changes for a blank token or password, an unknown token, a used or expired record, or a password
      longer than bcrypt takes. */
  lemma BadConfirmationsChangeNothing(db: Tables, token: Padded, password: string, salt: nat,
                                      checkedAt: Time, markedAt: Time, revokedAt: Time)
    ensures var result := ConfirmPasswordReset(db, token, password, salt, checkedAt, markedAt, revokedAt);
            if token.core == Empty || password == "" then result == (db, Err(InvalidInput))
            else
              && (NoResetRow(db, token.core) ==> result == (db, Err(Unauthorized)))
              && (forall i: nat :: ResetRow(db, token.core, i) ==>
                    && (Spent(db.resets[i], checkedAt) ==> result == (db, Err(Unauthorized)))
                    && (!Spent(db.resets[i], checkedAt) && |password| > 72 ==> result == (db, Err(Internal))))
  {
    forall i: nat | ResetRow(db, token.core, i)
      ensures FindReset(db.resets, Sha256(token.core)) == Some(i)
    {
      ResetRowIsFound(db, token.core, i);
    }
  }

  // ---- The confirmation: whose password changes ----

  /** The unused record of this id is stamped, and no other changes. */
  ghost predicate ResetStamped(rows: seq<PasswordReset>, after: seq<PasswordReset>, id: Text, now: Time) {
    && |after| == |rows|
    && forall i :: 0 <= i < |rows| ==>
         if rows[i].id == id && rows[i].usedAt.None?
         then after[i] == rows[i].(usedAt := Some(now)) else after[i] == rows[i]
  }

  /** The live users with this id have the new hash, and no other user changes in any way. */
  ghost predicate OnlyUserRehashed(users: seq<User>, after: seq<User>, id: Text, hash: PasswordHash) {
    && |after| == |users|
    && forall i :: 0 <= i < |users| ==>
         if users[i].id == id && users[i].deletedAt.None? then after[i] == users[i].(passwordHash := hash)
         else after[i] == users[i]
  }

  ghost predicate OnlyAdminRehashed(admins: seq<Admin>, after: seq<Admin>, id: Text, hash: PasswordHash) {
    && |after| == |admins|
    && forall i :: 0 <= i < |admins| ==>
         if admins[i].id == id then after[i] == admins[i].(passwordHash := hash) else after[i] == admins[i]
  }

  predicate HasId(u: User, id: Text) {
    u.id == id && u.deletedAt.None?
  }

  /** The account that a record names: the user when there is one, else the admin. */
  ghost predicate AccountStands(db: Tables, p: PasswordReset) {
    if p.userId.Some? then exists i :: 0 <= i < |db.users| && HasId(db.users[i], p.userId.value)
    else p.adminId.Some? && exists i :: 0 <= i < |db.admins| && db.admins[i].id == p.adminId.value
  }

  /** The tables of accounts after the password of the record's account was written. */
  ghost predicate AccountRehashed(db: Tables, d: Tables, p: PasswordReset, hash: PasswordHash) {
    if p.userId.Some? then OnlyUserRehashed(db.users, d.users, p.userId.value, hash) && d.admins == db.admins
    else p.adminId.Some? && OnlyAdminRehashed(db.admins, d.admins, p.adminId.value, hash) && d.users == db.users
  }

  lemma WritingReachesTheAccount(db: Tables, p: PasswordReset, hash: PasswordHash)
    ensures var w := SetPassword(db, p.Owner(), hash);
            if AccountStands(db, p) then w.Ok? && AccountRehashed(db, w.value, p, hash)
                                         && w.value == db.(users := w.value.users, admins := w.value.admins)
            else w == Err(if p.userId.Some? || p.adminId.Some? then NotFound else Unauthorized)
  {
    if p.userId.Some? {
      assert UserUpdateAffects(db.users, p.userId.value) <==> AccountStands(db, p);
    } else if p.adminId.Some? {
      assert AdminUpdateAffects(db.admins, p.adminId.value) <==> AccountStands(db, p);
    }
  }

  /** The unrevoked rows of the record's account are revoked, and no other row changes. */
  ghost predicate AccountLoggedOut(rows: seq<RefreshToken>, after: seq<RefreshToken>, p: PasswordReset, now: Time) {
    && |after| == |rows|
    && forall i :: 0 <= i < |rows| ==>
         if rows[i].revokedAt.None?
            && if p.userId.Some? then rows[i].userId == p.userId else rows[i].adminId == p.adminId
         then after[i] == rows[i].(revokedAt := Some(now)) else after[i] == rows[i]
  }

  lemma LoggingOutReachesTheAccount(rows: seq<RefreshToken>, p: PasswordReset, now: Time)
    requires p.userId.Some? || p.adminId.Some?
    ensures AccountLoggedOut(rows, RevokeBySubject(rows, p.Owner(), now), p, now)
  {
  }

  /** A good confirmation stamps the record; when the account stands it writes the new password for that
      account alone and revokes that account's tokens alone; without the account the record is spent and
      nothing else changes. */
  lemma GoodConfirmationReachesTheAccount(db: Tables, token: Padded, password: string, salt: nat,
                                          checkedAt: Time, markedAt: Time, revokedAt: Time, i: nat)
    requires token.core != Empty && 0 < |password| <= 72 && ResetRow(db, token.core, i)
    requires !Spent(db.resets[i], checkedAt)
    ensures var p := db.resets[i];
            var (d, r) := ConfirmPasswordReset(db, token, password, salt, checkedAt, markedAt, revokedAt);
            && ResetStamped(db.resets, d.resets, p.id, markedAt)
            && d == db.(resets := d.resets, users := d.users, admins := d.admins, refresh := d.refresh)
            && if AccountStands(db, p)
               then && r == Ok(()) && AccountRehashed(db, d, p, Bcrypt(salt, password))
                    && AccountLoggedOut(db.refresh, d.refresh, p, revokedAt)
               else && d.users == db.users && d.admins == db.admins && d.refresh == db.refresh
                    && r == Err(if p.userId.Some? || p.adminId.Some? then NotFound else Unauthorized)
  {
    ResetRowIsFound(db, token.core, i);
    var p := db.resets[i];
    assert Unused(db.resets[i], p.id);
    var marked := db.(resets := MarkUsed(db.resets, p.id, markedAt));
    WritingReachesTheAccount(marked, p, Bcrypt(salt, password));
    assert AccountStands(db, p) <==> AccountStands(marked, p);
    if AccountStands(db, p) {
      LoggingOutReachesTheAccount(db.refresh, p, revokedAt);
    }
  }

  /** A confirmation that succeeds has written the password of its record's account alone; one that fails
      has written none. */
  ghost predicate OneAccountRehashed(db: Tables, d: Tables, raw: Text, hash: PasswordHash) {
    exists i: nat :: ResetRow(db, raw, i) && AccountRehashed(db, d, db.resets[i], hash)
  }

  lemma ConfirmationReachesOneAccount(db: Tables, token: Padded, password: string, salt: nat,
                                      checkedAt: Time, markedAt: Time, revokedAt: Time)
    ensures var (d, r) := ConfirmPasswordReset(db, token, password, salt, checkedAt, markedAt, revokedAt);
            && (r.Ok? ==> OneAccountRehashed(db, d, token.core, Bcrypt(salt, password)))
            && (r.Err? ==> d.users == db.users && d.admins == db.admins)
  {
    var at := FindReset(db.resets, Sha256(token.core));
    if at.Some? && token.core != Empty && 0 < |password| <= 72 && !Spent(db.resets[at.value], checkedAt) {
      assert ResetRow(db, token.core, at.value);
      GoodConfirmationReachesTheAccount(db, token, password, salt, checkedAt, markedAt, revokedAt, at.value);
    }
  }
}
