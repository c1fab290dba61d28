/** TokenService and AuthService as they run: statement after statement on the database object.
    Every method is proved to do to the tables, and to return, what the function of the same name in
    Flows says; what the service promises is proved about those functions. */
module Services {
  import opened Domain
  import opened Strings
  import opened AccessTokens
  import opened Store
  import F = Flows
  import P = Plain
  import TokenPromises
  import LoginPromises
  import SecondFactorPromises
  import ResetPromises

  class TokenService {
    const cfg: TokenConfig
    const db: DB

    constructor (cfg: TokenConfig, db: DB)
      ensures this.cfg == cfg && this.db == db
    {
      this.cfg := cfg;
      this.db := db;
    }

    method Mint(c: AccessClaims, subj: Subject, ids: F.MintIds, now: Time) returns (r: Result<F.Session>)
      modifies db
      ensures (db.Snapshot(), r) == F.Mint(cfg, old(db.Snapshot()), c, subj, ids, now)
    {
      var created := db.CreateRefresh(F.NewRow(cfg, subj, ids, now));
      if created.Err? {
        return Err(created.error);
      }
      return Ok(F.NewSession(cfg, c, ids, now));
    }

    method Refresh(raw: Text, ids: F.MintIds, checkedAt: Time, mintedAt: Time,
                   revokedAt: Time) returns (r: Result<F.Session>)
      modifies db
      ensures (db.Snapshot(), r) == F.Refresh(cfg, old(db.Snapshot()), raw, ids, checkedAt, mintedAt, revokedAt)
      ensures forall i: nat :: P.TokenRow(old(db.Snapshot()), raw, i) && P.Stale(old(db.refresh)[i], checkedAt) ==>
                r == Err(TokenRevoked) && P.OwnerRevoked(old(db.refresh), db.refresh, old(db.refresh)[i], revokedAt)
    {
      TokenPromises.StaleTokensAreRefused(cfg, db.Snapshot(), raw, ids, checkedAt, mintedAt, revokedAt);
      var found := db.GetRefreshByHash(Sha256(raw));
      if found.Err? {
        return Err(Unauthorized);
      }
      var existing := found.value;
      if !existing.IsActive(checkedAt) {
        db.RevokeRefreshBySubject(existing.Owner(), revokedAt);
        return Err(TokenRevoked);
      }
      var subj;
      if existing.userId.Some? {
        subj := UserSubject(existing.userId.value);
      } else if existing.adminId.Some? {
        subj := AdminSubject(existing.adminId.value);
      } else {
        return Err(Unauthorized);
      }
      var claims := F.AccountClaims(db.Snapshot(), subj);
      if claims.Err? {
        return Err(claims.error);
      }
      var session := Mint(claims.value, subj, ids, mintedAt);
      if session.Err? {
        return session;
      }
      var revoked := db.RevokeRefresh(existing.id, Empty, revokedAt);
      if revoked.Err? {
        return Err(revoked.error);
      }
      return session;
    }

    method RevokeAccessJTI(jti: Text, expiresAt: Time, reason: string) returns (r: Result<()>)
      modifies db
      ensures (db.Snapshot(), r) == F.RevokeJTI(old(db.Snapshot()), jti, expiresAt, reason)
    {
      if jti == Empty {
        return Err(InvalidInput);
      }
      db.AddRevokedJTI(jti, RevokedJTI(expiresAt, reason));
      return Ok(());
    }

    method Logout(raw: Text, jti: Text, accessExp: Time, now: Time)
      modifies db
      ensures db.Snapshot() == F.Logout(old(db.Snapshot()), raw, jti, accessExp, now)
    {
      if raw != Empty {
        var found := db.GetRefreshByHash(Sha256(raw));
        if found.Ok? {
          var _ := db.RevokeRefresh(found.value.id, Empty, now);
        }
      }
      if jti != Empty {
        var _ := RevokeAccessJTI(jti, accessExp, "logout");
      }
    }

    /** The logout handler: the access token's own id and expiry, when it verifies or is already revoked. */
    method LogoutHandler(raw: Text, access: Option<Token>, parsedAt: Time, queriedAt: Time, now: Time)
      modifies db
      ensures db.Snapshot() == F.LogoutRequest(cfg, old(db.Snapshot()), raw, access, parsedAt, queriedAt, now)
    {
      var jti, exp := Empty, 0;
      if access.Some? {
        var v := VerifyAccess(cfg, db.revoked, access.value, "", parsedAt, queriedAt);
        if v.claims.Some? && (v.error.None? || v.error == Some(TokenRevoked)) {
          jti, exp := v.claims.value.jti, v.claims.value.exp * SECOND;
        }
      }
      Logout(raw, jti, exp, now);
    }
  }

  class AuthService {
    const tokens: TokenService
    const db: DB

    constructor (tokens: TokenService)
      ensures this.tokens == tokens && this.db == tokens.db
    {
      this.tokens := tokens;
      this.db := tokens.db;
    }

    predicate Wired() {
      db == tokens.db
    }

    method MintLogin(c: AccessClaims, subj: Subject, ids: F.MintIds, now: Time) returns (r: Result<F.LoginResult>)
      requires Wired()
      modifies db
      ensures (db.Snapshot(), r) == F.Login(F.Mint(tokens.cfg, old(db.Snapshot()), c, subj, ids, now))
    {
      var session := tokens.Mint(c, subj, ids, now);
      r := if session.Err? then Err(session.error) else Ok(F.LoggedIn(session.value));
    }

    method PassUser(u: User, ids: F.MintIds, now: Time) returns (r: Result<F.LoginResult>)
      requires Wired()
      modifies db
      ensures (db.Snapshot(), r) == F.PassUser(tokens.cfg, old(db.Snapshot()), u, ids, now)
    {
      if u.id in db.user2fa && db.user2fa[u.id].IsEnrolled() {
        return Ok(F.NeedsTwoFA(MintPartial2FA(tokens.cfg, UserSubject(u.id), now)));
      }
      r := MintLogin(F.UserClaims(u), UserSubject(u.id), ids, now);
    }

    method PassAdmin(a: Admin, ids: F.MintIds, now: Time) returns (r: Result<F.LoginResult>)
      requires Wired()
      modifies db
      ensures (db.Snapshot(), r) == F.PassAdmin(tokens.cfg, old(db.Snapshot()), a, ids, now)
    {
      if a.requiresTwoFA {
        return Ok(F.NeedsTwoFA(MintPartial2FA(tokens.cfg, AdminSubject(a.id), now)));
      }
      r := MintLogin(F.AdminClaims(a), AdminSubject(a.id), ids, now);
    }

    method LoginUser(email: string, password: string, ids: F.MintIds, now: Time) returns (r: Result<F.LoginResult>)
      requires Wired()
      modifies db
      ensures (db.Snapshot(), r) == F.LoginUser(tokens.cfg, old(db.Snapshot()), email, password, ids, now)
    {
      var e := TrimSpace(ToLower(email));
      if e == "" || password == "" {
        return Err(InvalidInput);
      }
      var u := F.PasswordUser(db.Snapshot(), e, password);
      if u.Some? {
        r := PassUser(u.value, ids, now);
        return;
      }
      var a := F.PasswordAdmin(db.Snapshot(), e, password);
      if a.Some? {
        r := PassAdmin(a.value, ids, now);
        return;
      }
      return Err(Unauthorized);
    }

    method LoginAdmin(email: string, password: string, ids: F.MintIds, now: Time) returns (r: Result<F.LoginResult>)
      requires Wired()
      modifies db
      ensures (db.Snapshot(), r) == F.LoginAdmin(tokens.cfg, old(db.Snapshot()), email, password, ids, now)
    {
      var e := TrimSpace(ToLower(email));
      if e == "" || password == "" {
        return Err(InvalidInput);
      }
      var a := F.PasswordAdmin(db.Snapshot(), e, password);
      if a.None? {
        return Err(Unauthorized);
      }
      r := PassAdmin(a.value, ids, now);
    }

    method RegisterUser(reg: F.Registration, userId: Text, salt: nat, ids: F.MintIds,
                        now: Time) returns (r: Result<F.LoginResult>)
      requires Wired()
      modifies db
      ensures (db.Snapshot(), r) == F.RegisterUser(tokens.cfg, old(db.Snapshot()), reg, userId, salt, ids, now)
    {
      var e := TrimSpace(ToLower(reg.email));
      if e == "" || reg.password == "" || (TrimSpace(reg.phone) == "" && TrimSpace(reg.telegram) == "") {
        return Err(InvalidInput);
      }
      if FindUserByEmail(db.users, e).Some? {
        return Err(Conflict);
      }
      var hash := F.HashPassword(reg.password, salt);
      if hash.Err? {
        return Err(hash.error);
      }
      var u := F.NewUser(reg, userId, hash.value);
      var created := db.CreateUser(u);
      if created.Err? {
        return Err(created.error);
      }
      r := MintLogin(F.UserClaims(u), UserSubject(u.id), ids, now);
    }

    method CompleteLogin2FA(partial: Token, code: string, totp: F.TotpAnswer, ids: F.MintIds,
                            parsedAt: Time, confirmedAt: Time, mintedAt: Time) returns (r: Result<F.LoginResult>)
      requires Wired()
      modifies db
      ensures (db.Snapshot(), r) ==
              F.CompleteLogin2FA(tokens.cfg, old(db.Snapshot()), partial, code, totp, ids, parsedAt, confirmedAt,
                                 mintedAt)
      ensures r.Ok? ==> LoginPromises.ProperlyCompleted(tokens.cfg, old(db.Snapshot()), r.value, partial, code, totp,
                                                        ids, parsedAt, mintedAt)
    {
      LoginPromises.CompletedLoginIsProper(tokens.cfg, db.Snapshot(), partial, code, totp, ids, parsedAt, confirmedAt,
                                           mintedAt);
      var subj := ParsePartialToken(tokens.cfg, partial, parsedAt);
      if subj.Err? {
        return Err(subj.error);
      }
      var verified := Verify2FA(subj.value, code, totp, confirmedAt);
      if verified.Err? {
        return Err(verified.error);
      }
      if subj.value.kind == KindUser {
        var u := FindUser(db.users, subj.value.userId);
        if u.None? {
          return Err(Unauthorized);
        }
        r := MintLogin(F.UserClaims(db.users[u.value]), UserSubject(db.users[u.value].id), ids, mintedAt);
      } else {
        var a := FindAdmin(db.admins, subj.value.adminId);
        if a.None? {
          return Err(Unauthorized);
        }
        r := MintLogin(F.AdminClaims(db.admins[a.value]), AdminSubject(db.admins[a.value].id), ids, mintedAt);
      }
    }

    method Enroll2FA(subj: Subject, secret: Text, codes: seq<string>, salts: seq<nat>) returns (r: Result<seq<string>>)
      requires |salts| == |codes|
      modifies db
      ensures (db.Snapshot(), r) == F.Enroll2FA(old(db.Snapshot()), subj, secret, codes, salts)
    {
      if !F.AccountExists(db.Snapshot(), subj) {
        return Err(NotFound);
      }
      var hashes := [];
      for i := 0 to |codes|
        invariant |hashes| == i && forall j :: 0 <= j < i ==> hashes[j] == Bcrypt(salts[j], codes[j])
      {
        hashes := hashes + [Bcrypt(salts[i], codes[i])];
      }
      assert hashes == F.HashCodes(codes, salts);
      db.UpsertTwoFA(subj, TwoFA(secret, hashes, None));
      return Ok(codes);
    }

    /** The search for the stored hash that a backup code matches: the first one. */
    method FindBackupCode(hashes: seq<PasswordHash>, code: string) returns (at: Option<nat>)
      ensures at == F.FindCode(hashes, code)
      ensures at.Some? ==> at.value < |hashes| && BcryptMatches(hashes[at.value], code)
      ensures at.None? ==> forall j :: 0 <= j < |hashes| ==> !BcryptMatches(hashes[j], code)
    {
      var i := 0;
      while i < |hashes|
        invariant i <= |hashes| && forall j :: 0 <= j < i ==> !BcryptMatches(hashes[j], code)
      {
        if BcryptMatches(hashes[i], code) {
          return Some(i);
        }
        i := i + 1;
      }
      return None;
    }

    method Verify2FA(subj: Subject, code: string, totp: F.TotpAnswer, now: Time) returns (r: Result<()>)
      modifies db
      ensures (db.Snapshot(), r) == F.Verify2FA(old(db.Snapshot()), subj, code, totp, now)
      ensures r.Ok? <==> P.RightCodeOf(old(db.Snapshot()), subj, code, totp)
      ensures r.Err? ==> db.Snapshot() == old(db.Snapshot())
    {
      SecondFactorPromises.VerificationAnswersTheCode(db.Snapshot(), subj, code, totp, now);
      SecondFactorPromises.VerificationChangesTheRecord(db.Snapshot(), subj, code, totp, now);
      var c := TrimSpace(ToUpper(code));
      if c == "" {
        return Err(InvalidInput);
      }
      var rec := GetTwoFA(db.Snapshot(), subj);
      if rec.None? {
        return Err(TwoFANotEnrolled);
      }
      var wasEnrolled := rec.value.IsEnrolled();
      if IsTOTPShape(c) {
        if totp == F.DecryptFails {
          return Err(Internal);
        }
        if totp == F.WrongCode {
          return Err(InvalidTwoFACode);
        }
      } else {
        var found := FindBackupCode(rec.value.backupCodesHash, c);
        if found.None? {
          return Err(InvalidTwoFACode);
        }
        db.ConsumeCode(subj, rec.value.backupCodesHash[found.value]);
      }
      if !wasEnrolled {
        var _ := db.SetEnrolled(subj, now);
      }
      return Ok(());
    }

    method Disable2FA(subj: Subject)
      modifies db
      ensures db.Snapshot() == DeleteTwoFA(old(db.Snapshot()), subj)
    {
      db.RemoveTwoFA(subj);
    }

    method RequestPasswordReset(email: string, id: Text, raw: Text,
                                now: Time) returns (r: Result<Option<F.ResetIssued>>)
      modifies db
      ensures (db.Snapshot(), r) == F.RequestPasswordReset(old(db.Snapshot()), email, id, raw, now)
    {
      var e := TrimSpace(ToLower(email));
      if e == "" {
        return Err(InvalidInput);
      }
      var subj := F.ResetSubject(db.Snapshot(), e);
      if subj.None? {
        return Ok(None);
      }
      var issued := F.IssuedFor(db.Snapshot(), e, raw);
      db.CreateReset(F.NewReset(subj.value, id, raw, now));
      return Ok(Some(issued));
    }

    method ConfirmPasswordReset(token: Padded, password: string, salt: nat,
                                checkedAt: Time, markedAt: Time, revokedAt: Time) returns (r: Result<()>)
      modifies db
      ensures (db.Snapshot(), r) ==
              F.ConfirmPasswordReset(old(db.Snapshot()), token, password, salt, checkedAt, markedAt, revokedAt)
      ensures r.Ok? ==> ResetPromises.OneAccountRehashed(old(db.Snapshot()), db.Snapshot(), token.core,
                                                         Bcrypt(salt, password))
      ensures r.Err? ==> db.users == old(db.users) && db.admins == old(db.admins)
    {
      ResetPromises.ConfirmationReachesOneAccount(db.Snapshot(), token, password, salt, checkedAt, markedAt, revokedAt);
      var raw := TrimText(token);
      if raw == Empty || password == "" {
        return Err(InvalidInput);
      }
      var found := db.GetResetByHash(Sha256(raw));
      if found.Err? {
        return Err(Unauthorized);
      }
      var rec := found.value;
      if rec.usedAt.Some? || rec.expiresAt < checkedAt {
        return Err(Unauthorized);
      }
      var hash := F.HashPassword(password, salt);
      if hash.Err? {
        return Err(hash.error);
      }
      var marked := db.MarkResetUsed(rec.id, markedAt);
      if marked.Err? {
        return marked;
      }
      var written;
      if rec.userId.Some? {
        if !UserUpdateAffects(db.users, rec.userId.value) {
          NoUserWritten(db.users, rec.userId.value, hash.value);
        }
        written := db.UpdateUserPassword(rec.userId.value, hash.value);
      } else if rec.adminId.Some? {
        if !AdminUpdateAffects(db.admins, rec.adminId.value) {
          NoAdminWritten(db.admins, rec.adminId.value, hash.value);
        }
        written := db.UpdateAdminPassword(rec.adminId.value, hash.value);
      } else {
        return Err(Unauthorized);
      }
      if written.Err? {
        return Err(written.error);
      }
      db.RevokeRefreshBySubject(rec.Owner(), revokedAt);
      return Ok(());
    }
  }
}
