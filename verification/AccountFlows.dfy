/** Properties that span several calls made one after another: a refresh speaks for the account as it is
    now, and a password reset leads back to a login. */
module AccountFlows {
  import opened Domain
  import opened Strings
  import opened AccessTokens
  import opened Store
  import opened Flows
  import opened AuthRuns

  // ---- A refresh speaks for the account as it is now ----

  /** The account exists, and is not soft-deleted. */
  predicate LiveAccount(db: Tables, subj: Subject) {
    match subj.kind
    case KindUser => FindUser(db.users,
                              subj.userId).Some? && db.users[FindUser(db.users, subj.userId).value].deletedAt.None?
    case KindAdmin => FindAdmin(db.admins, subj.adminId).Some?
    case KindNone => false
  }

  /** The claims give the id, kind, role and email of the account of `subj`. */
  ghost predicate Describes(c: AccessClaims, db: Tables, subj: Subject) {
    && c.sub == subj.ID()
    && (subj.kind == KindAdmin ==>
          && c.typ == Some(TypAdmin)
          && exists a :: a in db.admins && a.id == subj.adminId && c.role == a.role && c.email == a.email)
    && (subj.kind == KindUser ==>
          && c.typ == Some(TypUser)
          && c.role == ROLE_USER
          && exists u :: u in db.users && u.id == subj.userId && u.deletedAt.None? && c.email == u.email)
  }

  lemma LiveAccountClaims(db: Tables, subj: Subject)
    ensures AccountClaims(db, subj).Ok? <==> LiveAccount(db, subj)
    ensures AccountClaims(db, subj).Ok? ==> Describes(AccountClaims(db, subj).value, db, subj)
  {
  }

  /** What verification of the access token returns, before it expires and unrevoked. */
  function Verified(cfg: TokenConfig, s: Session, at: Time): Verdict {
    VerifyAccess(cfg, map[], s.access, "", at, at)
  }

  /** A refresh mints exactly when the presented row is unrevoked and not at its expiry, its owner is still a
      live account, and the new row's id is free; the access token then verifies as that account, with its
      role and email of this moment. In every other case no row is added. */
  lemma RefreshCarriesAccount(cfg: TokenConfig, db: Tables, raw: Text, ids: MintIds,
                              checkedAt: Time, mintedAt: Time, revokedAt: Time, at: Time)
    ensures var found := FindRefresh(db.refresh, Sha256(raw));
            var (d, r) := Refresh(cfg, db, raw, ids, checkedAt, mintedAt, revokedAt);
            && (r.Ok? <==> found.Some? && db.refresh[found.value].revokedAt.None?
                           && checkedAt < db.refresh[found.value].expiresAt
                           && LiveAccount(db, db.refresh[found.value].Owner()) && !HasRefreshId(db.refresh, ids.rowId))
            && (r.Err? ==> |d.refresh| == |db.refresh|)
            && (r.Ok? && Live(Unix(mintedAt + cfg.accessTTL), at) ==>
                  && Verified(cfg, r.value, at).Accepted()
                  && Describes(Verified(cfg, r.value, at).claims.value, db, db.refresh[found.value].Owner()))
  {
    var found := FindRefresh(db.refresh, Sha256(raw));
    if found.Some? {
      var row := db.refresh[found.value];
      LiveAccountClaims(db, row.Owner());
      if row.IsActive(checkedAt) && LiveAccount(db, row.Owner()) && !HasRefreshId(db.refresh, ids.rowId) {
        var c := AccountClaims(db, row.Owner()).value;
        assert Revocable((db.refresh + [NewRow(cfg, row.Owner(), ids, mintedAt)])[found.value], row.id);
        VerifyUndoesMint(cfg, map[], c, ids.jti, mintedAt, "", at, at);
      }
    }
  }

  // ---- From a password reset to a login ----

  /** Changing passwords does not change whom an email finds. */
  lemma SameUserByEmail(users: seq<User>, id: Text, hash: PasswordHash, email: string)
    ensures FindUserByEmail(SetUserPassword(users, id, hash), email) == FindUserByEmail(users, email)
  {
    var p := (u: User) => u.email == email && u.deletedAt.None?;
    var after := SetUserPassword(users, id, hash);
    assert forall j :: 0 <= j < |users| ==> p(after[j]) == p(users[j]);
    var at := FindUserByEmail(users, email);
    if at.Some? {
      FirstIs(after, p, 0, at.value);
    } else {
      NoneIs(after, p, 0);
    }
  }

  lemma SameAdminByEmail(admins: seq<Admin>, id: Text, hash: PasswordHash, email: string)
    ensures FindAdminByEmail(SetAdminPassword(admins, id, hash), email) == FindAdminByEmail(admins, email)
  {
    var p := (a: Admin) => a.email == email;
    var after := SetAdminPassword(admins, id, hash);
    assert forall j :: 0 <= j < |admins| ==> p(after[j]) == p(admins[j]);
    var at := FindAdminByEmail(admins, email);
    if at.Some? {
      FirstIs(after, p, 0, at.value);
    } else {
      NoneIs(after, p, 0);
    }
  }

  /** A request with a new raw token, then its confirmation within the hour: the record is found and used. */
  lemma RequestedThenFound(db: Tables, subj: Subject, id: Text, raw: Text, now: Time)
    requires FindReset(db.resets, Sha256(raw)).None?
    ensures FindReset(db.resets + [NewReset(subj, id, raw, now)], Sha256(raw)) == Some(|db.resets|)
    ensures MarkAffects(db.resets + [NewReset(subj, id, raw, now)], id)
  {
    var rows := db.resets + [NewReset(subj, id, raw, now)];
    assert Unused(rows[|db.resets|], id);
    FirstIs(rows, (p: PasswordReset) => p.tokenHash == Sha256(raw), 0, |db.resets|);
  }

  lemma UserPasswordSet(db: Tables, email: string, hash: PasswordHash)
    requires FindUserByEmail(db.users, email).Some?
    ensures var u := db.users[FindUserByEmail(db.users, email).value];
            && UserUpdateAffects(db.users, u.id)
            && PasswordUser(db.(users := SetUserPassword(db.users, u.id, hash)), email, hash.secret)
               == Some(u.(passwordHash := hash))
  {
    var u := db.users[FindUserByEmail(db.users, email).value];
    SameUserByEmail(db.users, u.id, hash, email);
  }

  lemma AdminPasswordSet(db: Tables, email: string, hash: PasswordHash)
    requires FindAdminByEmail(db.admins, email).Some?
    ensures var a := db.admins[FindAdminByEmail(db.admins, email).value];
            && AdminUpdateAffects(db.admins, a.id)
            && PasswordAdmin(db.(admins := SetAdminPassword(db.admins, a.id, hash)), email, hash.secret)
               == Some(a.(passwordHash := hash))
  {
    var a := db.admins[FindAdminByEmail(db.admins, email).value];
    SameAdminByEmail(db.admins, a.id, hash, email);
  }

  /** The new password is in place for the account that the email finds. */
  ghost predicate NewPasswordWorks(db: Tables, email: string, password: string, subj: Subject) {
    || (PasswordUser(db, email, password).Some? && subj == UserSubject(PasswordUser(db, email, password).value.id))
    || (PasswordUser(db, email, password).None? && PasswordAdmin(db, email, password).Some?
        && subj == AdminSubject(PasswordAdmin(db, email, password).value.id))
  }

  lemma PasswordIsSet(db: Tables, email: string, hash: PasswordHash, subj: Subject)
    requires ResetSubject(db, email) == Some(subj)
    ensures SetPassword(db, subj, hash).Ok?
    ensures NewPasswordWorks(SetPassword(db, subj, hash).value, email, hash.secret, subj)
    ensures SetPassword(db, subj, hash).value.refresh == db.refresh
    ensures SetPassword(db, subj, hash).value.resets == db.resets
  {
    if FindUserByEmail(db.users, email).Some? {
      UserPasswordSet(db, email, hash);
    } else {
      AdminPasswordSet(db, email, hash);
    }
  }

  /** What a confirmed reset leaves behind. */
  ghost predicate ResetDoneFor(db: Tables, before: Tables, raw: Text, email: string, password: string, subj: Subject) {
    && NewPasswordWorks(db, email, password, subj)
    && (forall i :: 0 <= i < |db.refresh| && db.refresh[i].Owner() == subj ==> db.refresh[i].revokedAt.Some?)
    && |db.refresh| == |before.refresh|
    && (forall i :: 0 <= i < |db.refresh| ==> db.refresh[i].id == before.refresh[i].id)
    && FindReset(db.resets, Sha256(raw)).Some?
    && db.resets[FindReset(db.resets, Sha256(raw)).value].usedAt.Some?
  }

  lemma OwnerIsOwned(t: RefreshToken, subj: Subject)
    requires t.Owner() == subj && Canonical(subj) && subj != ZERO_SUBJECT
    ensures OwnedBy(t, subj)
  {
  }

  lemma ConfirmedOnce(rows: seq<PasswordReset>, id: Text, hash: Digest, n: nat, now: Time)
    requires FindReset(rows, hash) == Some(n) && n < |rows| && rows[n].id == id
    ensures FindReset(MarkUsed(rows, id, now), hash) == Some(n) && MarkUsed(rows, id, now)[n].usedAt.Some?
  {
    FirstIs(MarkUsed(rows, id, now), (p: PasswordReset) => p.tokenHash == hash, 0, n);
  }

  /** The caller gets the raw token with the account that it is for. */
  predicate IssuedTo(issued: ResetIssued, raw: Text, subj: Subject) {
    issued.raw == raw && subj == if issued.ForUser? then UserSubject(issued.user.id) else AdminSubject(issued.admin.id)
  }

  lemma RequestIsIssued(db: Tables, email: string, id: Text, raw: Text, now: Time, subj: Subject)
    requires NormalEmail(email) != "" && ResetSubject(db, NormalEmail(email)) == Some(subj)
    ensures RequestPasswordReset(db, email, id, raw, now) ==
            (db.(resets := db.resets + [NewReset(subj, id, raw, now)]),
             Ok(Some(IssuedFor(db, NormalEmail(email), raw))))
    ensures IssuedTo(IssuedFor(db, NormalEmail(email), raw), raw, subj)
    ensures Canonical(subj) && subj != ZERO_SUBJECT && NewReset(subj, id, raw, now).Owner() == subj
  {
  }

  lemma RevokedAll(rows: seq<RefreshToken>, subj: Subject, now: Time)
    requires Canonical(subj) && subj != ZERO_SUBJECT
    ensures var after := RevokeBySubject(rows, subj, now);
            && |after| == |rows|
            && (forall i :: 0 <= i < |rows| ==> after[i].id == rows[i].id)
            && (forall i :: 0 <= i < |rows| && after[i].Owner() == subj ==> after[i].revokedAt.Some?)
  {
    var after := RevokeBySubject(rows, subj, now);
    forall i | 0 <= i < |rows| && after[i].Owner() == subj
      ensures after[i].revokedAt.Some?
    {
      OwnerIsOwned(rows[i], subj);
    }
  }

  /** What a confirmation does that finds an unused, unexpired record: mark, write, revoke. */
  lemma ConfirmGoesThrough(db: Tables, token: Padded, password: string, salt: nat,
                           checkedAt: Time, markedAt: Time, revokedAt: Time, i: nat, subj: Subject)
    requires TrimText(token) != Empty && 0 < |password| <= 72
    requires FindReset(db.resets, Sha256(TrimText(token))) == Some(i) && i < |db.resets|
    requires ResetUsable(db.resets[i], checkedAt) && db.resets[i].Owner() == subj
    requires var marked := db.(resets := MarkUsed(db.resets, db.resets[i].id, markedAt));
             SetPassword(marked, subj, Bcrypt(salt, password)).Ok?
    ensures var marked := db.(resets := MarkUsed(db.resets, db.resets[i].id, markedAt));
            var written := SetPassword(marked, subj, Bcrypt(salt, password)).value;
            ConfirmPasswordReset(db, token, password, salt, checkedAt, markedAt, revokedAt)
            == (written.(refresh := RevokeBySubject(written.refresh, subj, revokedAt)), Ok(()))
  {
    assert Unused(db.resets[i], db.resets[i].id);
  }

  /** A confirmation within the hour after the request goes through. */
  lemma RequestThenConfirm(db: Tables, email: string, id: Text, raw: Text, padding: nat, password: string, salt: nat,
                           requestedAt: Time, checkedAt: Time, markedAt: Time, revokedAt: Time, subj: Subject)
    requires NormalEmail(email) != "" && ResetSubject(db, NormalEmail(email)) == Some(subj)
    requires raw != Empty && FindReset(db.resets, Sha256(raw)).None? && 0 < |password| <= 72
    requires checkedAt <= requestedAt + 3_600_000_000_000
    ensures var (db1, issued) := RequestPasswordReset(db, email, id, raw, requestedAt);
            var (db2, confirmed) :=
              ConfirmPasswordReset(db1, Padded(raw, padding), password, salt, checkedAt, markedAt, revokedAt);
            && issued.Ok? && issued.value.Some? && IssuedTo(issued.value.value, raw, subj)
            && confirmed == Ok(()) && ResetDoneFor(db2, db, raw, NormalEmail(email), password, subj)
  {
    RequestIsIssued(db, email, id, raw, requestedAt, subj);
    RequestedThenFound(db, subj, id, raw, requestedAt);
    var rows := db.resets + [NewReset(subj, id, raw, requestedAt)];
    ConfirmedOnce(rows, id, Sha256(raw), |db.resets|, markedAt);
    var marked, hash := db.(resets := MarkUsed(rows, id, markedAt)), Bcrypt(salt, password);
    PasswordIsSet(marked, NormalEmail(email), hash, subj);
    ConfirmGoesThrough(db.(resets := rows), Padded(raw, padding), password, salt, checkedAt, markedAt, revokedAt,
                       |db.resets|, subj);
    RevokedAll(db.refresh, subj, revokedAt);
    var written := SetPassword(marked, subj, hash).value;
    PasswordSurvives(written, RevokeBySubject(db.refresh, subj, revokedAt), NormalEmail(email), password, subj);
  }

  lemma PasswordSurvives(db: Tables, rows: seq<RefreshToken>, email: string, password: string, subj: Subject)
    requires NewPasswordWorks(db, email, password, subj)
    ensures NewPasswordWorks(db.(refresh := rows), email, password, subj)
  {
  }

  /** The token works once. */
  lemma SecondConfirmFails(db: Tables, before: Tables, raw: Text, email: string, password: string, subj: Subject,
                           padding: nat, again: string, salt: nat, checkedAt: Time, markedAt: Time, revokedAt: Time)
    requires ResetDoneFor(db, before, raw, email, password, subj) && raw != Empty && again != ""
    ensures ConfirmPasswordReset(db, Padded(raw, padding), again, salt, checkedAt, markedAt, revokedAt)
            == (db, Err(Unauthorized))
  {
  }

  /** What a login hands out is for `subj`. */
  predicate LoginIsFor(cfg: TokenConfig, r: LoginResult, subj: Subject, now: Time) {
    match r
    case LoggedIn(session) => SessionSubject(session) == subj
    case NeedsTwoFA(partial) => partial == MintPartial2FA(cfg, subj, now)
  }

  lemma LoginWithNewPassword(cfg: TokenConfig, db: Tables, email: string, password: string, ids: MintIds, now: Time,
                             subj: Subject)
    requires NormalEmail(email) != "" && password != "" && NewPasswordWorks(db, NormalEmail(email), password, subj)
    requires !HasRefreshId(db.refresh, ids.rowId)
    ensures var r := LoginUser(cfg, db, email, password, ids, now).1; r.Ok? && LoginIsFor(cfg, r.value, subj, now)
  {
  }

  /** Request, confirmation, login: whoever holds the emailed token, typed with or without white space
      around it, sets the password of the account the email names and logs in to it, or is asked for its
      second factor; every earlier session of the account is out, and the token works no second time. */
  lemma ResetLeadsToLogin(cfg: TokenConfig, db: Tables, email: string, id: Text, raw: Text, padding: nat,
                          password: string, salt: nat, ids: MintIds,
                          requestedAt: Time, checkedAt: Time, markedAt: Time, revokedAt: Time, now: Time, again: string)
    requires NormalEmail(email) != "" && ResetSubject(db, NormalEmail(email)).Some?
    requires raw != Empty && FindReset(db.resets, Sha256(raw)).None? && 0 < |password| <= 72 && again != ""
    requires checkedAt <= requestedAt + 3_600_000_000_000 && !HasRefreshId(db.refresh, ids.rowId)
    ensures var subj, token := ResetSubject(db, NormalEmail(email)).value, Padded(raw, padding);
            var (db1, issued) := RequestPasswordReset(db, email, id, raw, requestedAt);
            var (db2, confirmed) := ConfirmPasswordReset(db1, token, password, salt, checkedAt, markedAt, revokedAt);
            var login := LoginUser(cfg, db2, email, password, ids, now).1;
            && issued.Ok? && issued.value.Some? && IssuedTo(issued.value.value, raw, subj)
            && confirmed == Ok(())
            && (forall i :: 0 <= i < |db2.refresh| && db2.refresh[i].Owner() == subj ==> db2.refresh[i].revokedAt.Some?)
            && login.Ok? && LoginIsFor(cfg, login.value, subj, now)
            && ConfirmPasswordReset(db2, token, again, salt, now, now, now) == (db2, Err(Unauthorized))
  {
    var subj, token := ResetSubject(db, NormalEmail(email)).value, Padded(raw, padding);
    RequestThenConfirm(db, email, id, raw, padding, password, salt, requestedAt, checkedAt, markedAt, revokedAt, subj);
    var db1 := RequestPasswordReset(db, email, id, raw, requestedAt).0;
    var db2 := ConfirmPasswordReset(db1, token, password, salt, checkedAt, markedAt, revokedAt).0;
    LoginWithNewPassword(cfg, db2, email, password, ids, now, subj);
    SecondConfirmFails(db2, db, raw, NormalEmail(email), password, subj, padding, again, salt, now, now, now);
  }

  // ---- From a registration to a login ----

  lemma RegisteredIsFound(db: Tables, u: User)
    requires FindUserByEmail(db.users, u.email).None? && u.deletedAt.None?
    ensures FindUserByEmail(db.users + [u], u.email) == Some(|db.users|)
  {
    FirstIs(db.users + [u], (v: User) => v.email == u.email && v.deletedAt.None?, 0, |db.users|);
  }

  /** An email that a user has is not registered again, under whatever id. */
  lemma RegisteredEmailConflicts(cfg: TokenConfig, db: Tables, again: Registration, userId: Text, salt: nat,
                                 ids: MintIds, now: Time)
    requires NormalEmail(again.email) != "" && FindUserByEmail(db.users, NormalEmail(again.email)).Some?
    ensures RegisterUser(cfg, db, again, userId, salt, ids, now) ==
            (db, Err(if again.password == "" || (TrimSpace(again.phone) == "" && TrimSpace(again.telegram) == "")
                     then InvalidInput else Conflict))
  {
  }

  /** A registration that succeeds makes an account that the same email, however it is written, and the
      same password log in to. A second registration of the email, under whatever new id, changes nothing
      and is a conflict once its own fields are in order. */
  lemma RegistrationLeadsToLogin(cfg: TokenConfig, db: Tables, reg: Registration, userId: Text, salt: nat,
                                 ids: MintIds, at: Time, email: string, ids2: MintIds, now: Time,
                                 again: Registration, userId2: Text, salt2: nat)
    requires RegisterUser(cfg, db, reg, userId, salt, ids, at).1.Ok?
    requires NormalEmail(email) == NormalEmail(reg.email) == NormalEmail(again.email)
    requires ids2.rowId != ids.rowId && !HasRefreshId(db.refresh, ids2.rowId)
    ensures var d := RegisterUser(cfg, db, reg, userId, salt, ids, at).0;
            var login := LoginUser(cfg, d, email, reg.password, ids2, now).1;
            && login.Ok? && LoginIsFor(cfg, login.value, UserSubject(userId), now)
            && (login.value.LoggedIn? <==> !Enrolled(db, UserSubject(userId)))
            && RegisterUser(cfg, d, again, userId2, salt2, ids2, now) ==
               (d, Err(if again.password == "" || (TrimSpace(again.phone) == "" && TrimSpace(again.telegram) == "")
                       then InvalidInput else Conflict))
  {
    var d := RegisterUser(cfg, db, reg, userId, salt, ids, at).0;
    var u := NewUser(reg, userId, HashPassword(reg.password, salt).value);
    RegisteredIsFound(db, u);
    assert d.users == db.users + [u] && d.refresh == db.refresh + [NewRow(cfg, UserSubject(userId), ids, at)];
    LoginWithNewPassword(cfg, d, email, reg.password, ids2, now, UserSubject(userId));
    RegisteredEmailConflicts(cfg, d, again, userId2, salt2, ids2, now);
  }
}
