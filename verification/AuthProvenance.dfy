/** Where sessions come from: in every run, each session traces back to a registration, a password
    match, or a completed second factor, for the subject its access token names. */
module AuthProvenance {
  import opened Domain
  import opened AccessTokens
  import opened Store
  import opened Flows
  import opened AuthRuns
  import opened Plain
  import opened SecondFactorPromises

  // ---- Rows and the sessions they were made for ----

  predicate RowFor(row: RefreshToken, s: Session) {
    row.tokenHash == Sha256(s.refreshRaw) && row.Owner() == SessionSubject(s)
  }

  /** Same rows, except for what a revocation changes. */
  predicate Carried(a: seq<RefreshToken>, b: seq<RefreshToken>) {
    && |a| <= |b|
    && forall i :: 0 <= i < |a| ==> SameToken(a[i], b[i])
  }

  predicate SameToken(t: RefreshToken, t': RefreshToken) {
    && t'.tokenHash == t.tokenHash && t'.Owner() == t.Owner()
    && (t.revokedAt.Some? ==> t'.revokedAt == t.revokedAt)
  }

  /** A call adds the row of the session it hands out, and no other row. */
  predicate GrowsBy(a: seq<RefreshToken>, b: seq<RefreshToken>, session: Option<Session>) {
    && Carried(a, b)
    && match session
       case None => |b| == |a|
       case Some(s) => |b| == |a| + 1 && RowFor(b[|a|], s)
  }

  lemma MintGrows(cfg: TokenConfig, db: Tables, c: AccessClaims, subj: Subject, ids: MintIds, now: Time)
    requires Canonical(subj) && ClaimsFor(subj, c)
    ensures var (d, r) := Mint(cfg, db, c, subj, ids, now);
            && GrowsBy(db.refresh, d.refresh, if r.Ok? then Some(r.value) else None)
            && (r.Ok? ==> SessionSubject(r.value) == subj)
  {
  }

  lemma RevokesCarry(rows: seq<RefreshToken>, id: Text, subj: Subject, replacedBy: Option<Text>, now: Time)
    ensures GrowsBy(rows, RevokeById(rows, id, replacedBy, now), None)
    ensures GrowsBy(rows, RevokeBySubject(rows, subj, now), None)
  {
  }

  function SessionIn(r: Result<LoginResult>): Option<Session> {
    SessionOf(LoginOutcome(r))
  }

  lemma PassUserGrows(cfg: TokenConfig, db: Tables, u: User, ids: MintIds, now: Time)
    ensures var (d, r) := PassUser(cfg, db, u, ids, now);
            && GrowsBy(db.refresh, d.refresh, SessionIn(r))
            && (SessionIn(r).Some? ==>
                  SessionSubject(SessionIn(r).value) == UserSubject(u.id) && !Enrolled(db, UserSubject(u.id)))
            && (PartialOf(LoginOutcome(r)).Some? ==>
                  && Enrolled(db, UserSubject(u.id))
                  && PartialOf(LoginOutcome(r)).value == MintPartial2FA(cfg, UserSubject(u.id), now))
  {
    MintGrows(cfg, db, UserClaims(u), UserSubject(u.id), ids, now);
  }

  lemma PassAdminGrows(cfg: TokenConfig, db: Tables, a: Admin, ids: MintIds, now: Time)
    ensures var (d, r) := PassAdmin(cfg, db, a, ids, now);
            && GrowsBy(db.refresh, d.refresh, SessionIn(r))
            && (SessionIn(r).Some? ==> SessionSubject(SessionIn(r).value) == AdminSubject(a.id) && !a.requiresTwoFA)
            && (PartialOf(LoginOutcome(r)).Some? ==>
                  a.requiresTwoFA && PartialOf(LoginOutcome(r)).value == MintPartial2FA(cfg, AdminSubject(a.id), now))
  {
    MintGrows(cfg, db, AdminClaims(a), AdminSubject(a.id), ids, now);
  }

  /** What a login hands out: a session when the password matched and no second factor is asked for,
      a partial token when one is. */
  ghost predicate LoginOk(cfg: TokenConfig, db: Tables, d: Tables, r: Result<LoginResult>, email: string,
                          password: string, now: Time) {
    && GrowsBy(db.refresh, d.refresh, SessionIn(r))
    && (SessionIn(r).Some? ==> PasswordMatch(db, email, password, SessionSubject(SessionIn(r).value), false))
    && (PartialOf(LoginOutcome(r)).Some? ==>
          exists subj :: Canonical(subj) && PasswordMatch(db, email, password, subj, true)
                         && PartialOf(LoginOutcome(r)).value == MintPartial2FA(cfg, subj, now))
  }

  lemma UserPasses(cfg: TokenConfig, db: Tables, email: string, password: string, ids: MintIds, now: Time)
    requires PasswordUser(db, NormalEmail(email), password).Some?
    ensures var (d, r) := PassUser(cfg, db, PasswordUser(db, NormalEmail(email), password).value, ids, now);
            LoginOk(cfg, db, d, r, email, password, now)
  {
    var e := NormalEmail(email);
    var u := PasswordUser(db, e, password).value;
    assert UserMatch(db.users[FindUserByEmail(db.users, e).value], e, password, UserSubject(u.id));
    PassUserGrows(cfg, db, u, ids, now);
    assert Canonical(UserSubject(u.id));
  }

  lemma AdminPasses(cfg: TokenConfig, db: Tables, email: string, password: string, ids: MintIds, now: Time)
    requires PasswordAdmin(db, NormalEmail(email), password).Some?
    ensures var (d, r) := PassAdmin(cfg, db, PasswordAdmin(db, NormalEmail(email), password).value, ids, now);
            LoginOk(cfg, db, d, r, email, password, now)
  {
    var e := NormalEmail(email);
    var a := PasswordAdmin(db, e, password).value;
    assert AdminMatch(db.admins[FindAdminByEmail(db.admins, e).value], e, password, AdminSubject(a.id));
    PassAdminGrows(cfg, db, a, ids, now);
    assert Canonical(AdminSubject(a.id));
  }

  lemma LoginUserOk(cfg: TokenConfig, db: Tables, email: string, password: string, ids: MintIds, now: Time)
    ensures var (d, r) := LoginUser(cfg, db, email, password, ids, now); LoginOk(cfg, db, d, r, email, password, now)
  {
    var e := NormalEmail(email);
    if PasswordUser(db, e, password).Some? {
      UserPasses(cfg, db, email, password, ids, now);
    } else if PasswordAdmin(db, e, password).Some? {
      AdminPasses(cfg, db, email, password, ids, now);
    }
  }

  lemma LoginAdminOk(cfg: TokenConfig, db: Tables, email: string, password: string, ids: MintIds, now: Time)
    ensures var (d, r) := LoginAdmin(cfg, db, email, password, ids, now); LoginOk(cfg, db, d, r, email, password, now)
  {
    if PasswordAdmin(db, NormalEmail(email), password).Some? {
      AdminPasses(cfg, db, email, password, ids, now);
    }
  }

  lemma RegisterGrows(cfg: TokenConfig, db: Tables, reg: Registration, userId: Text, salt: nat, ids: MintIds, now: Time)
    ensures var (d, r) := RegisterUser(cfg, db, reg, userId, salt, ids, now);
            && GrowsBy(db.refresh, d.refresh, SessionIn(r))
            && PartialOf(LoginOutcome(r)).None?
            && (SessionIn(r).Some? ==>
                  SessionSubject(SessionIn(r).value) == UserSubject(userId) && FindUser(db.users, userId).None?)
  {
    var hash := HashPassword(reg.password, salt);
    if hash.Ok? {
      var u := NewUser(reg, userId, hash.value);
      MintGrows(cfg, db.(users := db.users + [u]), UserClaims(u), UserSubject(u.id), ids, now);
    }
  }

  lemma VerifyKeepsRows(db: Tables, subj: Subject, code: string, totp: TotpAnswer, now: Time)
    ensures var d := Verify2FA(db, subj, code, totp, now).0;
            d.refresh == db.refresh && d.users == db.users && d.admins == db.admins
  {
  }

  lemma FinishGrows(cfg: TokenConfig, db: Tables, subj: Subject, ids: MintIds, now: Time)
    requires Canonical(subj)
    ensures var (d, r) := FinishLogin(cfg, db, subj, ids, now);
            && GrowsBy(db.refresh, d.refresh, SessionIn(r))
            && PartialOf(LoginOutcome(r)).None?
            && (SessionIn(r).Some? ==> SessionSubject(SessionIn(r).value) == subj)
  {
    if subj.kind == KindUser {
      var u := FindUser(db.users, subj.userId);
      if u.Some? {
        MintGrows(cfg, db, UserClaims(db.users[u.value]), UserSubject(db.users[u.value].id), ids, now);
      }
    } else {
      var a := FindAdmin(db.admins, subj.adminId);
      if a.Some? {
        MintGrows(cfg, db, AdminClaims(db.admins[a.value]), AdminSubject(db.admins[a.value].id), ids, now);
      }
    }
  }

  lemma CompleteGrows(cfg: TokenConfig, db: Tables, partial: Token, code: string, totp: TotpAnswer, ids: MintIds,
                      parsedAt: Time, confirmedAt: Time, mintedAt: Time)
    ensures var (d, r) := CompleteLogin2FA(cfg, db, partial, code, totp, ids, parsedAt, confirmedAt, mintedAt);
            var subj := ParsePartialToken(cfg, partial, parsedAt);
            && GrowsBy(db.refresh, d.refresh, SessionIn(r))
            && PartialOf(LoginOutcome(r)).None?
            && (SessionIn(r).Some? ==>
                  && subj == Ok(SessionSubject(SessionIn(r).value))
                  && RightCodeOf(db, subj.value, code, totp))
  {
    var subj := ParsePartialToken(cfg, partial, parsedAt);
    if subj.Ok? {
      VerifyKeepsRows(db, subj.value, code, totp, confirmedAt);
      VerificationAnswersTheCode(db, subj.value, code, totp, confirmedAt);
      FinishGrows(cfg, Verify2FA(db, subj.value, code, totp, confirmedAt).0, subj.value, ids, mintedAt);
    }
  }

  lemma AccountNamed(db: Tables, subj: Subject)
    requires Canonical(subj) && AccountClaims(db, subj).Ok?
    ensures ClaimsFor(subj, AccountClaims(db, subj).value)
  {
  }

  /** A refresh hands out a session for the owner of the presented row. */
  lemma RefreshGrows(cfg: TokenConfig, db: Tables, raw: Text, ids: MintIds, checkedAt: Time, mintedAt: Time,
                     revokedAt: Time)
    ensures var (d, r) := Refresh(cfg, db, raw, ids, checkedAt, mintedAt, revokedAt);
            var at := FindRefresh(db.refresh, Sha256(raw));
            && GrowsBy(db.refresh, d.refresh, if r.Ok? then Some(r.value) else None)
            && (r.Ok? ==> at.Some? && db.refresh[at.value].Owner() == SessionSubject(r.value))
  {
    var at := FindRefresh(db.refresh, Sha256(raw));
    if at.Some? {
      var row := db.refresh[at.value];
      RevokesCarry(db.refresh, row.id, row.Owner(), None, revokedAt);
      var checked := RefreshCheck(row, checkedAt);
      if checked.Ok? && AccountClaims(db, checked.value).Ok? {
        RotationGrows(cfg, db, at.value, checked.value, ids, mintedAt, revokedAt);
      }
    }
  }

  /** The insert of the new row, then the revocation of the old one, which is still unrevoked. */
  lemma RotationGrows(cfg: TokenConfig, db: Tables, i: nat, subj: Subject, ids: MintIds, mintedAt: Time,
                      revokedAt: Time)
    requires i < |db.refresh| && db.refresh[i].revokedAt.None? && Canonical(subj) && AccountClaims(db, subj).Ok?
    ensures var (d, r) := Mint(cfg, db, AccountClaims(db, subj).value, subj, ids, mintedAt);
            && (r.Err? ==> d == db)
            && (r.Ok? ==> RevokeAffects(d.refresh, db.refresh[i].id) && SessionSubject(r.value) == subj
                          && GrowsBy(db.refresh, RevokeById(d.refresh, db.refresh[i].id, None, revokedAt),
                                     Some(r.value)))
  {
    AccountNamed(db, subj);
    var (d, r) := Mint(cfg, db, AccountClaims(db, subj).value, subj, ids, mintedAt);
    MintGrows(cfg, db, AccountClaims(db, subj).value, subj, ids, mintedAt);
    if r.Ok? {
      assert Revocable(d.refresh[i], db.refresh[i].id);
      RevokesCarry(d.refresh, db.refresh[i].id, subj, None, revokedAt);
    }
  }

  lemma LogoutGrows(cfg: TokenConfig, db: Tables, raw: Text, access: Option<Token>, parsedAt: Time, queriedAt: Time,
                    now: Time)
    ensures GrowsBy(db.refresh, LogoutRequest(cfg, db, raw, access, parsedAt, queriedAt, now).refresh, None)
  {
    var at := FindRefresh(db.refresh, Sha256(raw));
    if at.Some? {
      RevokesCarry(db.refresh, db.refresh[at.value].id, ZERO_SUBJECT, None, now);
    }
  }

  lemma ConfirmGrows(db: Tables, token: Padded, password: string, salt: nat, checkedAt: Time, markedAt: Time,
                     revokedAt: Time)
    ensures GrowsBy(db.refresh,
                    ConfirmPasswordReset(db, token, password, salt, checkedAt, markedAt, revokedAt).0.refresh, None)
  {
    var at := FindReset(db.resets, Sha256(TrimText(token)));
    if at.Some? {
      RevokesCarry(db.refresh, Empty, db.resets[at.value].Owner(), None, revokedAt);
    }
  }

  lemma LoginsGrow(cfg: TokenConfig, db: Tables, op: Op)
    requires op.Register? || op.UserLogin? || op.AdminLogin? || op.Complete? || op.RefreshWith?
    ensures GrowsBy(db.refresh, Perform(cfg, db, op).0.refresh, SessionOf(Perform(cfg, db, op).1))
  {
    match op
    case Register(reg, userId, salt, ids, now) => RegisterGrows(cfg, db, reg, userId, salt, ids, now);
    case UserLogin(email, password, ids, now) => LoginUserOk(cfg, db, email, password, ids, now);
    case AdminLogin(email, password, ids, now) => LoginAdminOk(cfg, db, email, password, ids, now);
    case Complete(partial, code, totp, ids, parsedAt, confirmedAt, mintedAt) =>
      CompleteGrows(cfg, db, partial, code, totp, ids, parsedAt, confirmedAt, mintedAt);
    case RefreshWith(raw, ids, checkedAt, mintedAt,
                     revokedAt) => RefreshGrows(cfg, db, raw, ids, checkedAt, mintedAt, revokedAt);
  }

  lemma PerformGrows(cfg: TokenConfig, db: Tables, op: Op)
    ensures GrowsBy(db.refresh, Perform(cfg, db, op).0.refresh, SessionOf(Perform(cfg, db, op).1))
  {
    match op
    case Verify(subj, code, totp, now) => VerifyKeepsRows(db, subj, code, totp, now);
    case ForceLogout(subj, now) => RevokesCarry(db.refresh, Empty, subj, None, now);
    case LogoutWith(raw, access, parsedAt, queriedAt,
                    now) => LogoutGrows(cfg, db, raw, access, parsedAt, queriedAt, now);
    case ConfirmReset(token, password, salt, checkedAt, markedAt, revokedAt) =>
      ConfirmGrows(db, token, password, salt, checkedAt, markedAt, revokedAt);
    case RevokeAccess(_, _, _) =>
    case Enroll(_, _, _) =>
    case Disable(_) =>
    case RequestReset(_, _, _, _) =>
    case Accounts(_, _) =>
    case _ => LoginsGrow(cfg, db, op);
  }

  // ---- Along a run ----

  /** Step `j` handed out a session with this refresh token, for this subject. */
  predicate MadeAt(cfg: TokenConfig, r: Run, j: nat, hash: Digest, owner: Subject)
    requires j < |r.ops|
  {
    var s := SessionOf(OutcomeAt(cfg, r, j));
    s.Some? && Sha256(s.value.refreshRaw) == hash && SessionSubject(s.value) == owner
  }

  lemma GrownRow(a: seq<RefreshToken>, b: seq<RefreshToken>, session: Option<Session>, i: nat)
    requires GrowsBy(a, b, session) && i < |b|
    ensures if i < |a| then b[i].tokenHash == a[i].tokenHash && b[i].Owner() == a[i].Owner()
            else && session.Some? && Sha256(session.value.refreshRaw) == b[i].tokenHash
                 && SessionSubject(session.value) == b[i].Owner()
  {
  }

  lemma LastStepMade(cfg: TokenConfig, r: Run, k: nat, i: nat, hash: Digest, owner: Subject)
    requires StepOk(cfg, r, k) && k < |r.ops| && i < |r.db(k + 1).refresh|
    requires r.db(k + 1).refresh[i].tokenHash == hash && r.db(k + 1).refresh[i].Owner() == owner
    ensures i < |r.db(k).refresh| ==> r.db(k).refresh[i].tokenHash == hash && r.db(k).refresh[i].Owner() == owner
    ensures i >= |r.db(k).refresh| ==> MadeAt(cfg, r, k, hash, owner)
  {
    PerformGrows(cfg, r.db(k), r.ops[k]);
    GrownRow(r.db(k).refresh, r.db(k + 1).refresh, SessionOf(OutcomeAt(cfg, r, k)), i);
  }

  /** Every row was made for a session that an earlier step handed out. */
  lemma {:induction false} RowsAreMade(cfg: TokenConfig, r: Run, n: nat, i: nat, hash: Digest,
                                       owner: Subject) returns (j: nat)
    requires IsRun(cfg, r) && r.db(0).refresh == [] && n <= |r.ops| && i < |r.db(n).refresh|
    requires r.db(n).refresh[i].tokenHash == hash && r.db(n).refresh[i].Owner() == owner
    ensures j < n && MadeAt(cfg, r, j, hash, owner)
    decreases n
  {
    j := n - 1;
    assert StepOk(cfg, r, j);
    LastStepMade(cfg, r, j, i, hash, owner);
    if i < |r.db(j).refresh| {
      j := RowsAreMade(cfg, r, j, i, hash, owner);
    }
  }

  /** A partial token is handed out by a login, after a password match that asks for a second factor. */
  lemma PartialsAreRooted(cfg: TokenConfig, db: Tables, op: Op) returns (subj: Subject)
    requires PartialOf(Perform(cfg, db, op).1).Some?
    ensures Canonical(subj) && PartialRoot(cfg, db, op, PartialOf(Perform(cfg, db, op).1).value, subj)
  {
    var t := PartialOf(Perform(cfg, db, op).1).value;
    match op
    case UserLogin(email, password, ids, now) =>
      LoginUserOk(cfg, db, email, password, ids, now);
      subj :| Canonical(subj) && PasswordMatch(db, email, password, subj, true) && t == MintPartial2FA(cfg, subj, now);
    case AdminLogin(email, password, ids, now) =>
      LoginAdminOk(cfg, db, email, password, ids, now);
      subj :| Canonical(subj) && PasswordMatch(db, email, password, subj, true) && t == MintPartial2FA(cfg, subj, now);
    case Register(reg, userId, salt, ids, now) => RegisterGrows(cfg, db, reg, userId, salt, ids, now);
    case Complete(partial, code, totp, ids, parsedAt, confirmedAt, mintedAt) =>
      CompleteGrows(cfg, db, partial, code, totp, ids, parsedAt, confirmedAt, mintedAt);
  }

  function LoginUserClaims(db: Tables, email: string, password: string): AccessClaims
    requires PasswordUser(db, NormalEmail(email),
                          password).Some? || PasswordAdmin(db, NormalEmail(email), password).Some?
  {
    var u := PasswordUser(db, NormalEmail(email), password);
    if u.Some? then UserClaims(u.value) else AdminClaims(PasswordAdmin(db, NormalEmail(email), password).value)
  }

  lemma LoginUserSigns(cfg: TokenConfig, db: Tables, email: string, password: string, ids: MintIds, now: Time)
    requires SessionIn(LoginUser(cfg, db, email, password, ids, now).1).Some?
    ensures PasswordUser(db, NormalEmail(email),
                         password).Some? || PasswordAdmin(db, NormalEmail(email), password).Some?
    ensures SessionIn(LoginUser(cfg, db, email, password, ids, now).1).value.access ==
            SignAccess(cfg, LoginUserClaims(db, email, password), ids.jti, now)
  {
  }

  lemma CompleteSigns(cfg: TokenConfig, db: Tables, partial: Token, code: string, totp: TotpAnswer, ids: MintIds,
                      parsedAt: Time, confirmedAt: Time, mintedAt: Time) returns (c: AccessClaims)
    requires SessionIn(CompleteLogin2FA(cfg, db, partial, code, totp, ids, parsedAt, confirmedAt, mintedAt).1).Some?
    ensures SessionIn(CompleteLogin2FA(cfg, db, partial, code, totp, ids, parsedAt, confirmedAt,
                                       mintedAt).1).value.access ==
            SignAccess(cfg, c, ids.jti, mintedAt)
  {
    var subj := ParsePartialToken(cfg, partial, parsedAt).value;
    var d := Verify2FA(db, subj, code, totp, confirmedAt).0;
    c := if subj.kind == KindUser then UserClaims(d.users[FindUser(d.users, subj.userId).value])
    else AdminClaims(d.admins[FindAdmin(d.admins, subj.adminId).value]);
  }

  /** Every session's access token was signed by the service as an access token. */
  lemma AccessIsSigned(cfg: TokenConfig, db: Tables, op: Op) returns (c: AccessClaims, jti: Text, at: Time)
    requires SessionOf(Perform(cfg, db, op).1).Some?
    ensures SessionOf(Perform(cfg, db, op).1).value.access == SignAccess(cfg, c, jti, at)
  {
    var s := SessionOf(Perform(cfg, db, op).1).value;
    match op
    case Register(reg, userId, salt, ids, now) =>
      c, jti, at := UserClaims(NewUser(reg, userId, HashPassword(reg.password, salt).value)), ids.jti, now;
    case UserLogin(email, password, ids, now) =>
      LoginUserSigns(cfg, db, email, password, ids, now);
      c, jti, at := LoginUserClaims(db, email, password), ids.jti, now;
    case AdminLogin(email, password, ids, now) =>
      c, jti, at := AdminClaims(PasswordAdmin(db, NormalEmail(email), password).value), ids.jti, now;
    case Complete(partial, code, totp, ids, parsedAt, confirmedAt, mintedAt) =>
      c := CompleteSigns(cfg, db, partial, code, totp, ids, parsedAt, confirmedAt, mintedAt);
      jti, at := ids.jti, mintedAt;
    case RefreshWith(raw, ids, checkedAt, mintedAt, revokedAt) =>
      var row := db.refresh[FindRefresh(db.refresh, Sha256(raw)).value];
      c, jti, at := AccountClaims(db, row.Owner()).value, ids.jti, mintedAt;
  }

  /** A partial token that parses comes back as the subject it was made for, before its expiry. */
  lemma ParsedPartial(cfg: TokenConfig, subj: Subject, mintedAt: Time, now: Time)
    requires Canonical(subj) && ParsePartialToken(cfg, MintPartial2FA(cfg, subj, mintedAt), now).Ok?
    ensures ParsePartialToken(cfg, MintPartial2FA(cfg, subj, mintedAt), now) == Ok(subj)
    ensures now < Unix(mintedAt + 5 * MINUTE) * SECOND
  {
    if subj.ID() != Empty {
      ParseUndoesMintPartial(cfg, subj, mintedAt, now);
    }
  }

  /** The step that handed out a partial token which now parses. */
  lemma PartialTracesBack(cfg: TokenConfig, r: Run, k: nat) returns (j: nat)
    requires Unforged(cfg, r) && k < |r.ops| && r.ops[k].Complete?
    requires ParsePartialToken(cfg, r.ops[k].partial, r.ops[k].parsedAt).Ok?
    ensures j < k
    ensures PartialRoot(cfg, r.db(j), r.ops[j], r.ops[k].partial,
                        ParsePartialToken(cfg, r.ops[k].partial, r.ops[k].parsedAt).value)
    ensures r.ops[k].parsedAt < Unix(r.ops[j].now + 5 * MINUTE) * SECOND
  {
    var t := r.ops[k].partial;
    j :| 0 <= j < k && Issued(OutcomeAt(cfg, r, j), t);
    if PartialOf(OutcomeAt(cfg, r, j)) != Some(t) {
      var c, jti, at := AccessIsSigned(cfg, r.db(j), r.ops[j]);
      AccessIsNotPartial(cfg, c, jti, at, r.ops[k].parsedAt);
      assert false;
    }
    var subj := PartialsAreRooted(cfg, r.db(j), r.ops[j]);
    ParsedPartial(cfg, subj, r.ops[j].now, r.ops[k].parsedAt);
  }

  /** Every session has a proper root, for the subject its access token names. */
  lemma {:induction false} EverySessionIsRooted(cfg: TokenConfig, r: Run, k: nat)
    requires IsRun(cfg, r) && Unforged(cfg, r) && r.db(0).refresh == [] && k < |r.ops|
    requires SessionOf(OutcomeAt(cfg, r, k)).Some?
    ensures Rooted(cfg, r, k, SessionSubject(SessionOf(OutcomeAt(cfg, r, k)).value))
    decreases k
  {
    var here := r.db(k);
    match r.ops[k]
    case Register(reg, userId, salt, ids, now) => RegisterGrows(cfg, here, reg, userId, salt, ids, now);
    case UserLogin(email, password, ids, now) => LoginUserOk(cfg, here, email, password, ids, now);
    case AdminLogin(email, password, ids, now) => LoginAdminOk(cfg, here, email, password, ids, now);
    case Complete(partial, code, totp, ids, parsedAt, confirmedAt, mintedAt) =>
      CompleteGrows(cfg, here, partial, code, totp, ids, parsedAt, confirmedAt, mintedAt);
      var j := PartialTracesBack(cfg, r, k);
    case RefreshWith(raw, ids, checkedAt, mintedAt, revokedAt) =>
      RefreshGrows(cfg, here, raw, ids, checkedAt, mintedAt, revokedAt);
      var i := FindRefresh(here.refresh, Sha256(raw)).value;
      var j := RowsAreMade(cfg, r, k, i, Sha256(raw), here.refresh[i].Owner());
      EverySessionIsRooted(cfg, r, j);
  }
}
