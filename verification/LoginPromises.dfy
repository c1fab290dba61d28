/** Who is let in, as whom, and who is not: the logins, the registration and the end of a two-step login,
    read off the rows. */
module LoginPromises {
  import opened Domain
  import opened Strings
  import opened AccessTokens
  import opened Store
  import opened Flows
  import opened Plain
  import opened SecondFactorPromises

  // ---- Passwords ----

  /** The first live user of the email, with this password. */
  ghost predicate RightUser(db: Tables, email: string, password: string, i: nat) {
    EmailUser(db, email, i) && db.users[i].passwordHash.secret == password
  }

  ghost predicate NoRightUser(db: Tables, email: string, password: string) {
    forall i: nat :: EmailUser(db, email, i) ==> db.users[i].passwordHash.secret != password
  }

  ghost predicate RightAdmin(db: Tables, email: string, password: string, i: nat) {
    EmailAdmin(db, email, i) && db.admins[i].passwordHash.secret == password
  }

  ghost predicate NoRightAdmin(db: Tables, email: string, password: string) {
    forall i: nat :: EmailAdmin(db, email, i) ==> db.admins[i].passwordHash.secret != password
  }

  lemma RightUserPasses(db: Tables, email: string, password: string, i: nat)
    requires RightUser(db, email, password, i)
    ensures PasswordUser(db, email, password) == Some(db.users[i])
  {
    EmailUserIsFound(db, email, i);
  }

  lemma WrongUserFails(db: Tables, email: string, password: string)
    requires NoRightUser(db, email, password)
    ensures PasswordUser(db, email, password) == None
  {
    var at := FindUserByEmail(db.users, email);
    if at.Some? {
      assert EmailUser(db, email, at.value);
    }
  }

  lemma RightAdminPasses(db: Tables, email: string, password: string, i: nat)
    requires RightAdmin(db, email, password, i)
    ensures PasswordAdmin(db, email, password) == Some(db.admins[i])
  {
    EmailAdminIsFound(db, email, i);
  }

  lemma WrongAdminFails(db: Tables, email: string, password: string)
    requires NoRightAdmin(db, email, password)
    ensures PasswordAdmin(db, email, password) == None
  {
    var at := FindAdminByEmail(db.admins, email);
    if at.Some? {
      assert EmailAdmin(db, email, at.value);
    }
  }

  // ---- What a matched account gets ----

  /** A session for the user, its row added, with the user's id and email and the role "user". */
  ghost predicate UserLetIn(cfg: TokenConfig, db: Tables, d: Tables, r: Result<LoginResult>, u: User, ids: MintIds,
                            now: Time) {
    && r.Ok? && r.value.LoggedIn?
    && SessionIs(cfg, r.value.session, u.id, TypUser, ROLE_USER, u.email, ids, now)
    && OnlyAdds(db, d, RowOfSession(cfg, Some(u.id), None, ids, now))
  }

  /** A session for the admin, with the admin's own role. */
  ghost predicate AdminLetIn(cfg: TokenConfig, db: Tables, d: Tables, r: Result<LoginResult>, a: Admin, ids: MintIds,
                             now: Time) {
    && r.Ok? && r.value.LoggedIn?
    && SessionIs(cfg, r.value.session, a.id, TypAdmin, a.role, a.email, ids, now)
    && OnlyAdds(db, d, RowOfSession(cfg, None, Some(a.id), ids, now))
  }

  /** A partial token, and nothing changed. */
  predicate AskedForCode(cfg: TokenConfig, db: Tables, d: Tables, r: Result<LoginResult>, sub: Text, typ: Typ,
                         now: Time) {
    r.Ok? && r.value.NeedsTwoFA? && PartialTokenIs(cfg, r.value.partial, sub, typ, now) && d == db
  }

  predicate UserIsEnrolled(db: Tables, id: Text) {
    id in db.user2fa && db.user2fa[id].enrolledAt.Some?
  }

  ghost predicate UserPassed(cfg: TokenConfig, db: Tables, d: Tables, r: Result<LoginResult>, u: User, ids: MintIds,
                             now: Time) {
    if UserIsEnrolled(db, u.id) then AskedForCode(cfg, db, d, r, u.id, TypUserPartial, now)
    else if FreeRowId(db, ids.rowId) then UserLetIn(cfg, db, d, r, u, ids, now)
    else d == db && r == Err(Internal)
  }

  ghost predicate AdminPassed(cfg: TokenConfig, db: Tables, d: Tables, r: Result<LoginResult>, a: Admin, ids: MintIds,
                              now: Time) {
    if a.requiresTwoFA then AskedForCode(cfg, db, d, r, a.id, TypAdminPartial, now)
    else if FreeRowId(db, ids.rowId) then AdminLetIn(cfg, db, d, r, a, ids, now)
    else d == db && r == Err(Internal)
  }

  lemma UserMint(cfg: TokenConfig, db: Tables, u: User, ids: MintIds, now: Time)
    ensures var (d, r) := MintForUser(cfg, db, u, ids, now);
            if FreeRowId(db, ids.rowId) then UserLetIn(cfg, db, d, r, u, ids, now) else d == db && r == Err(Internal)
  {
  }

  lemma AdminMint(cfg: TokenConfig, db: Tables, a: Admin, ids: MintIds, now: Time)
    ensures var (d, r) := MintForAdmin(cfg, db, a, ids, now);
            if FreeRowId(db, ids.rowId) then AdminLetIn(cfg, db, d, r, a, ids, now) else d == db && r == Err(Internal)
  {
  }

  lemma UserPass(cfg: TokenConfig, db: Tables, u: User, ids: MintIds, now: Time)
    ensures var (d, r) := PassUser(cfg, db, u, ids, now); UserPassed(cfg, db, d, r, u, ids, now)
  {
    UserMint(cfg, db, u, ids, now);
  }

  lemma AdminPass(cfg: TokenConfig, db: Tables, a: Admin, ids: MintIds, now: Time)
    ensures var (d, r) := PassAdmin(cfg, db, a, ids, now); AdminPassed(cfg, db, d, r, a, ids, now)
  {
    AdminMint(cfg, db, a, ids, now);
  }

  // ---- The two logins ----

  /** The unified login lets the user in whose live email and password these are; failing that, the admin
      whose email and password these are; and no one else. */
  lemma UnifiedLoginLetsIn(cfg: TokenConfig, db: Tables, email: string, password: string, ids: MintIds, now: Time)
    ensures var e := TrimSpace(ToLower(email));
            var (d, r) := LoginUser(cfg, db, email, password, ids, now);
            if e == "" || password == "" then d == db && r == Err(InvalidInput)
            else
              && (forall i: nat :: RightUser(db, e, password, i) ==> UserPassed(cfg, db, d, r, db.users[i], ids, now))
              && (NoRightUser(db, e, password) ==>
                    && (forall i: nat :: RightAdmin(db, e, password, i) ==>
                          AdminPassed(cfg, db, d, r, db.admins[i], ids, now))
                    && (NoRightAdmin(db, e, password) ==> d == db && r == Err(Unauthorized)))
  {
    var e := TrimSpace(ToLower(email));
    if e != "" && password != "" {
      forall i: nat | RightUser(db, e, password, i)
        ensures var (d, r) := LoginUser(cfg, db, email, password, ids, now);
                UserPassed(cfg, db, d, r, db.users[i], ids, now)
      {
        RightUserPasses(db, e, password, i);
        UserPass(cfg, db, db.users[i], ids, now);
      }
      if NoRightUser(db, e, password) {
        WrongUserFails(db, e, password);
        AdminsOnly(cfg, db, e, password, ids, now);
      }
    }
  }

  /** What the admin half of a login does. */
  function AdminHalf(cfg: TokenConfig, db: Tables, e: string, password: string, ids: MintIds,
                     now: Time): (Tables, Result<LoginResult>) {
    var a := PasswordAdmin(db, e, password);
    if a.Some? then PassAdmin(cfg, db, a.value, ids, now) else (db, Err(Unauthorized))
  }

  lemma AdminsOnly(cfg: TokenConfig, db: Tables, e: string, password: string, ids: MintIds, now: Time)
    ensures var (d, r) := AdminHalf(cfg, db, e, password, ids, now);
            && (forall i: nat :: RightAdmin(db, e, password, i) ==> AdminPassed(cfg, db, d, r, db.admins[i], ids, now))
            && (NoRightAdmin(db, e, password) ==> d == db && r == Err(Unauthorized))
  {
    forall i: nat | RightAdmin(db, e, password, i)
      ensures var (d, r) := AdminHalf(cfg, db, e, password, ids, now);
              AdminPassed(cfg, db, d, r, db.admins[i], ids, now)
    {
      RightAdminPasses(db, e, password, i);
      AdminPass(cfg, db, db.admins[i], ids, now);
    }
    if NoRightAdmin(db, e, password) {
      WrongAdminFails(db, e, password);
    }
  }

  /** The admin login lets in the admin whose email and password these are, and no one else. */
  lemma AdminLoginLetsIn(cfg: TokenConfig, db: Tables, email: string, password: string, ids: MintIds, now: Time)
    ensures var e := TrimSpace(ToLower(email));
            var (d, r) := LoginAdmin(cfg, db, email, password, ids, now);
            if e == "" || password == "" then d == db && r == Err(InvalidInput)
            else
              && (forall i: nat :: RightAdmin(db, e, password, i) ==>
                    AdminPassed(cfg, db, d, r, db.admins[i], ids, now))
              && (NoRightAdmin(db, e, password) ==> d == db && r == Err(Unauthorized))
  {
    AdminsOnly(cfg, db, TrimSpace(ToLower(email)), password, ids, now);
  }

  // ---- Registration ----

  /** The account that a registration makes. */
  predicate NewAccountIs(u: User, reg: Registration, id: Text, salt: nat) {
    && u.id == id && u.email == TrimSpace(ToLower(reg.email)) && u.deletedAt == None
    && u.passwordHash == Bcrypt(salt, reg.password)
    && u.name == (if TrimSpace(reg.name) == "" then TrimSpace(ToLower(reg.email)) else TrimSpace(reg.name))
    && u.phone == TrimSpace(reg.phone) && u.telegram == TrimSpace(reg.telegram)
  }

  predicate BlankFields(reg: Registration) {
    || TrimSpace(ToLower(reg.email)) == "" || reg.password == ""
    || (TrimSpace(reg.phone) == "" && TrimSpace(reg.telegram) == "")
  }

  ghost predicate FreeUserId(db: Tables, id: Text) {
    forall j :: 0 <= j < |db.users| ==> db.users[j].id != id
  }

  /** A registration with all its fields, a free email and a password that bcrypt takes adds exactly the
      account asked for, and hands out a session for it. */
  lemma RegistrationMakesTheAccount(cfg: TokenConfig, db: Tables, reg: Registration, userId: Text, salt: nat,
                                    ids: MintIds, now: Time)
    requires !BlankFields(reg) && NoEmailUser(db, TrimSpace(ToLower(reg.email))) && |reg.password| <= 72
    requires FreeUserId(db, userId) && FreeRowId(db, ids.rowId)
    ensures var (d, r) := RegisterUser(cfg, db, reg, userId, salt, ids, now);
            && |d.users| == |db.users| + 1 && d.users[..|db.users|] == db.users
            && NewAccountIs(d.users[|db.users|], reg, userId, salt)
            && UserLetIn(cfg, db.(users := d.users), d, r, d.users[|db.users|], ids, now)
  {
    NoEmailUserIsFound(db, TrimSpace(ToLower(reg.email)));
    NoneIs(db.users, (u: User) => u.id == userId, 0);
    var u := NewUser(reg, userId, Bcrypt(salt, reg.password));
    UserMint(cfg, db.(users := db.users + [u]), u, ids, now);
  }

  /** Otherwise nothing is added: blank fields first, then a taken email, then a password that is too long. */
  lemma RegistrationIsRefused(cfg: TokenConfig, db: Tables, reg: Registration, userId: Text, salt: nat, ids: MintIds,
                              now: Time)
    ensures var (d, r) := RegisterUser(cfg, db, reg, userId, salt, ids, now);
            && (BlankFields(reg) ==> d == db && r == Err(InvalidInput))
            && (!BlankFields(reg) && !NoEmailUser(db, TrimSpace(ToLower(reg.email))) ==> d == db && r == Err(Conflict))
            && (!BlankFields(reg) && NoEmailUser(db, TrimSpace(ToLower(reg.email))) && |reg.password| > 72 ==>
                  d == db && r == Err(Internal))
  {
    var e := TrimSpace(ToLower(reg.email));
    if NoEmailUser(db, e) {
      NoEmailUserIsFound(db, e);
    } else {
      var j :| 0 <= j < |db.users| && HasEmail(db.users[j], e);
      assert FindUserByEmail(db.users, e).Some?;
    }
  }

  /** A taken user id adds nothing; a taken row id leaves the new account without a session. */
  lemma RegistrationThatCollides(cfg: TokenConfig, db: Tables, reg: Registration, userId: Text, salt: nat, ids: MintIds,
                                 now: Time)
    requires !BlankFields(reg) && NoEmailUser(db, TrimSpace(ToLower(reg.email))) && |reg.password| <= 72
    ensures var (d, r) := RegisterUser(cfg, db, reg, userId, salt, ids, now);
            && (!FreeUserId(db, userId) ==> d == db && r == Err(Internal))
            && (FreeUserId(db, userId) && !FreeRowId(db, ids.rowId) ==>
                  && r == Err(Internal) && d == db.(users := d.users)
                  && |d.users| == |db.users| + 1 && d.users[..|db.users|] == db.users
                  && NewAccountIs(d.users[|db.users|], reg, userId, salt))
  {
    NoEmailUserIsFound(db, TrimSpace(ToLower(reg.email)));
    var u := NewUser(reg, userId, Bcrypt(salt, reg.password));
    if FreeUserId(db, userId) {
      NoneIs(db.users, (u: User) => u.id == userId, 0);
      UserMint(cfg, db.(users := db.users + [u]), u, ids, now);
    } else {
      var j :| 0 <= j < |db.users| && db.users[j].id == userId;
      assert FindUser(db.users, userId).Some?;
    }
  }

  // ---- The end of a two-step login ----

  /** After its code was verified a login hands out a session for the account of the partial token, with the
      email, and for an admin the role, of its row; without the account it is refused, the code spent. */
  lemma CompletedLoginSpeaksForAccount(cfg: TokenConfig, db: Tables, partial: Token, code: string, totp: TotpAnswer,
                                       ids: MintIds, parsedAt: Time, confirmedAt: Time, mintedAt: Time, subj: Subject)
    requires ParsePartialToken(cfg, partial, parsedAt) == Ok(subj) && RightCodeOf(db, subj, code, totp)
    ensures var verified := Verify2FA(db, subj, code, totp, confirmedAt).0;
            var (d, r) := CompleteLogin2FA(cfg, db, partial, code, totp, ids, parsedAt, confirmedAt, mintedAt);
            && verified.users == db.users && verified.admins == db.admins && verified.refresh == db.refresh
            && (subj.kind == KindUser ==>
                  && (forall i: nat :: UserRow(db, subj.userId, i) ==>
                        if FreeRowId(db, ids.rowId) then UserLetIn(cfg, verified, d, r, db.users[i], ids, mintedAt)
                        else d == verified && r == Err(Internal))
                  && ((forall i: nat :: !UserRow(db, subj.userId, i)) ==> d == verified && r == Err(Unauthorized)))
            && (subj.kind != KindUser ==>
                  && (forall i: nat :: AdminRow(db, subj.adminId, i) ==>
                        if FreeRowId(db, ids.rowId) then AdminLetIn(cfg, verified, d, r, db.admins[i], ids, mintedAt)
                        else d == verified && r == Err(Internal))
                  && ((forall i: nat :: !AdminRow(db, subj.adminId, i)) ==> d == verified && r == Err(Unauthorized)))
  {
    VerificationAnswersTheCode(db, subj, code, totp, confirmedAt);
    VerifyKeepsAccounts(db, subj, code, totp, confirmedAt);
    FinishedLogin(cfg, Verify2FA(db, subj, code, totp, confirmedAt).0, subj, ids, mintedAt);
    var verified := Verify2FA(db, subj, code, totp, confirmedAt).0;
    assert forall i: nat :: UserRow(db, subj.userId, i) <==> UserRow(verified, subj.userId, i);
    assert forall i: nat :: AdminRow(db, subj.adminId, i) <==> AdminRow(verified, subj.adminId, i);
    assert FreeRowId(db, ids.rowId) <==> FreeRowId(verified, ids.rowId);
  }

  /** Without a partial token that parses, or with a wrong code, a login is refused with that complaint, and
      nothing changes. */
  lemma UnverifiedLoginIsRefused(cfg: TokenConfig, db: Tables, partial: Token, code: string, totp: TotpAnswer,
                                 ids: MintIds, parsedAt: Time, confirmedAt: Time, mintedAt: Time)
    ensures var subj := ParsePartialToken(cfg, partial, parsedAt);
            var result := CompleteLogin2FA(cfg, db, partial, code, totp, ids, parsedAt, confirmedAt, mintedAt);
            && (subj.Err? ==> result == (db, Err(subj.error)))
            && (subj.Ok? && !RightCodeOf(db, subj.value, code, totp) ==>
                  result == (db, Err(WrongCodeError(db, subj.value, code, totp))))
  {
    var subj := ParsePartialToken(cfg, partial, parsedAt);
    if subj.Ok? {
      VerificationAnswersTheCode(db, subj.value, code, totp, confirmedAt);
    }
  }

  lemma VerifyKeepsAccounts(db: Tables, subj: Subject, code: string, totp: TotpAnswer, now: Time)
    ensures var d := Verify2FA(db, subj, code, totp, now).0;
            d.users == db.users && d.admins == db.admins && d.refresh == db.refresh
  {
  }

  lemma FinishedLogin(cfg: TokenConfig, db: Tables, subj: Subject, ids: MintIds, now: Time)
    ensures var (d, r) := FinishLogin(cfg, db, subj, ids, now);
            && (subj.kind == KindUser ==>
                  && (forall i: nat :: UserRow(db, subj.userId, i) ==>
                        if FreeRowId(db, ids.rowId) then UserLetIn(cfg, db, d, r, db.users[i], ids, now)
                        else d == db && r == Err(Internal))
                  && ((forall i: nat :: !UserRow(db, subj.userId, i)) ==> d == db && r == Err(Unauthorized)))
            && (subj.kind != KindUser ==>
                  && (forall i: nat :: AdminRow(db, subj.adminId, i) ==>
                        if FreeRowId(db, ids.rowId) then AdminLetIn(cfg, db, d, r, db.admins[i], ids, now)
                        else d == db && r == Err(Internal))
                  && ((forall i: nat :: !AdminRow(db, subj.adminId, i)) ==> d == db && r == Err(Unauthorized)))
  {
    if subj.kind == KindUser {
      var at := FindUser(db.users, subj.userId);
      if at.Some? {
        assert UserRow(db, subj.userId, at.value);
        UserMint(cfg, db, db.users[at.value], ids, now);
        assert forall i: nat :: UserRow(db, subj.userId, i) ==> i == at.value;
      }
    } else {
      var at := FindAdmin(db.admins, subj.adminId);
      if at.Some? {
        assert AdminRow(db, subj.adminId, at.value);
        AdminMint(cfg, db, db.admins[at.value], ids, now);
        assert forall i: nat :: AdminRow(db, subj.adminId, i) ==> i == at.value;
      }
    }
  }

  /** The session is for the account of the subject: its id, its email and, for an admin, its role. */
  ghost predicate SessionOfAccount(cfg: TokenConfig, s: Session, db: Tables, subj: Subject, ids: MintIds, at: Time) {
    if subj.kind == KindUser
    then exists i: nat :: UserRow(db, subj.userId, i) &&
                          SessionIs(cfg, s, db.users[i].id, TypUser, ROLE_USER, db.users[i].email, ids, at)
    else exists i: nat :: AdminRow(db, subj.adminId, i) &&
                          SessionIs(cfg, s, db.admins[i].id, TypAdmin, db.admins[i].role, db.admins[i].email, ids, at)
  }

  /** A login that is completed had a partial token that parses and a right code. */
  ghost predicate ProperlyCompleted(cfg: TokenConfig, db: Tables, r: LoginResult, partial: Token, code: string,
                                    totp: TotpAnswer, ids: MintIds, parsedAt: Time, mintedAt: Time) {
    var subj := ParsePartialToken(cfg, partial, parsedAt);
    && subj.Ok? && RightCodeOf(db, subj.value, code, totp)
    && r.LoggedIn? && SessionOfAccount(cfg, r.session, db, subj.value, ids, mintedAt)
  }

  lemma CompletedLoginIsProper(cfg: TokenConfig, db: Tables, partial: Token, code: string, totp: TotpAnswer,
                               ids: MintIds, parsedAt: Time, confirmedAt: Time, mintedAt: Time)
    ensures var r := CompleteLogin2FA(cfg, db, partial, code, totp, ids, parsedAt, confirmedAt, mintedAt).1;
            r.Ok? ==> ProperlyCompleted(cfg, db, r.value, partial, code, totp, ids, parsedAt, mintedAt)
  {
    var subj := ParsePartialToken(cfg, partial, parsedAt);
    UnverifiedLoginIsRefused(cfg, db, partial, code, totp, ids, parsedAt, confirmedAt, mintedAt);
    if subj.Ok? && RightCodeOf(db, subj.value, code, totp) {
      CompletedLoginSpeaksForAccount(cfg, db, partial, code, totp, ids, parsedAt, confirmedAt, mintedAt, subj.value);
      if subj.value.kind == KindUser {
        var at := FindUser(db.users, subj.value.userId);
        assert at.Some? ==> UserRow(db, subj.value.userId, at.value);
      } else {
        var at := FindAdmin(db.admins, subj.value.adminId);
        assert at.Some? ==> AdminRow(db, subj.value.adminId, at.value);
      }
    }
  }
}
