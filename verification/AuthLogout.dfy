/** What a logout ends, over whole runs: the refresh token for good, the access token for as long as it
    could have lived. */
module AuthLogout {
  import opened Domain
  import opened AccessTokens
  import opened Store
  import opened Flows
  import opened AuthRuns
  import opened AuthProvenance

  // ---- The refresh token ----

  /** The row that this raw token finds is revoked. */
  predicate Refused(rows: seq<RefreshToken>, raw: Text) {
    var at := FindRefresh(rows, Sha256(raw));
    at.Some? && rows[at.value].revokedAt.Some?
  }

  lemma RefusedIsRefused(cfg: TokenConfig, db: Tables, raw: Text, ids: MintIds, checkedAt: Time, mintedAt: Time,
                         revokedAt: Time)
    requires Refused(db.refresh, raw)
    ensures Refresh(cfg, db, raw, ids, checkedAt, mintedAt, revokedAt).1 == Err(TokenRevoked)
  {
  }

  lemma StaysRefused(a: seq<RefreshToken>, b: seq<RefreshToken>, raw: Text)
    requires Carried(a, b) && Refused(a, raw)
    ensures Refused(b, raw)
  {
    var at := FindRefresh(a, Sha256(raw)).value;
    assert SameToken(a[at], b[at]);
    forall j | 0 <= j < at
      ensures b[j].tokenHash != Sha256(raw)
    {
      assert SameToken(a[j], b[j]);
    }
    FirstIs(b, (t: RefreshToken) => t.tokenHash == Sha256(raw), 0, at);
  }

  lemma {:induction false} RunStaysRefused(cfg: TokenConfig, r: Run, k: nat, n: nat, raw: Text)
    requires IsRun(cfg, r) && k <= n <= |r.ops| && Refused(r.db(k).refresh, raw)
    ensures Refused(r.db(n).refresh, raw)
    decreases n
  {
    if k < n {
      RunStaysRefused(cfg, r, k, n - 1, raw);
      assert StepOk(cfg, r, n - 1);
      PerformGrows(cfg, r.db(n - 1), r.ops[n - 1]);
      StaysRefused(r.db(n - 1).refresh, r.db(n).refresh, raw);
    }
  }

  lemma LogoutRefuses(rows: seq<RefreshToken>, raw: Text, now: Time)
    requires FindRefresh(rows, Sha256(raw)).Some?
    ensures Refused(RevokeRaw(rows, raw, now), raw)
  {
    FirstIs(RevokeRaw(rows, raw, now), (t: RefreshToken) => t.tokenHash == Sha256(raw), 0,
            FindRefresh(rows, Sha256(raw)).value);
  }

  lemma ForceLogoutRefuses(rows: seq<RefreshToken>, raw: Text, i: nat, subj: Subject, now: Time)
    requires FindRefresh(rows, Sha256(raw)) == Some(i) && i < |rows|
    requires rows[i].Owner() == subj && subj != ZERO_SUBJECT
    ensures Refused(RevokeBySubject(rows, subj, now), raw)
  {
    FirstIs(RevokeBySubject(rows, subj, now), (t: RefreshToken) => t.tokenHash == Sha256(raw), 0, i);
  }

  /** After a forced logout, at every later point of the run, no refresh token that the subject had then is
      accepted. */
  lemma ForceLogoutEndsSessions(cfg: TokenConfig, r: Run, k: nat, m: nat, i: nat)
    requires IsRun(cfg, r) && k < m < |r.ops| && r.ops[k].ForceLogout? && r.ops[m].RefreshWith?
    requires FindRefresh(r.db(k).refresh, Sha256(r.ops[m].raw)) == Some(i) && i < |r.db(k).refresh|
    requires r.db(k).refresh[i].Owner() == r.ops[k].subj && r.ops[k].subj != ZERO_SUBJECT
    ensures OutcomeAt(cfg, r, m) == RefreshOutcome(Err(TokenRevoked))
  {
    var op, raw := r.ops[m], r.ops[m].raw;
    assert StepOk(cfg, r, k);
    ForceLogoutRefuses(r.db(k).refresh, raw, i, r.ops[k].subj, r.ops[k].now);
    RunStaysRefused(cfg, r, k + 1, m, raw);
    RefusedIsRefused(cfg, r.db(m), raw, op.ids, op.checkedAt, op.mintedAt, op.revokedAt);
  }

  // ---- The access token ----

  lemma LoginUserKeepsRevoked(cfg: TokenConfig, db: Tables, email: string, password: string, ids: MintIds, now: Time)
    ensures LoginUser(cfg, db, email, password, ids, now).0.revoked == db.revoked
  {
  }

  lemma LoginAdminKeepsRevoked(cfg: TokenConfig, db: Tables, email: string, password: string, ids: MintIds, now: Time)
    ensures LoginAdmin(cfg, db, email, password, ids, now).0.revoked == db.revoked
  {
  }

  lemma RegisterKeepsRevoked(cfg: TokenConfig, db: Tables, reg: Registration, userId: Text, salt: nat, ids: MintIds,
                             now: Time)
    ensures RegisterUser(cfg, db, reg, userId, salt, ids, now).0.revoked == db.revoked
  {
  }

  lemma VerifyKeepsRevoked(db: Tables, subj: Subject, code: string, totp: TotpAnswer, now: Time)
    ensures Verify2FA(db, subj, code, totp, now).0.revoked == db.revoked
  {
  }

  lemma CompleteKeepsRevoked(cfg: TokenConfig, db: Tables, partial: Token, code: string, totp: TotpAnswer, ids: MintIds,
                             parsedAt: Time, confirmedAt: Time, mintedAt: Time)
    ensures CompleteLogin2FA(cfg, db, partial, code, totp, ids, parsedAt, confirmedAt, mintedAt).0.revoked == db.revoked
  {
    var subj := ParsePartialToken(cfg, partial, parsedAt);
    if subj.Ok? {
      VerifyKeepsRevoked(db, subj.value, code, totp, confirmedAt);
    }
  }

  lemma RefreshKeepsRevoked(cfg: TokenConfig, db: Tables, raw: Text, ids: MintIds, checkedAt: Time, mintedAt: Time,
                            revokedAt: Time)
    ensures Refresh(cfg, db, raw, ids, checkedAt, mintedAt, revokedAt).0.revoked == db.revoked
  {
  }

  lemma ConfirmKeepsRevoked(db: Tables, token: Padded, password: string, salt: nat, checkedAt: Time, markedAt: Time,
                            revokedAt: Time)
    ensures ConfirmPasswordReset(db, token, password, salt, checkedAt, markedAt, revokedAt).0.revoked == db.revoked
  {
  }

  lemma LoginsKeepRevoked(cfg: TokenConfig, db: Tables, op: Op)
    requires op.Register? || op.UserLogin? || op.AdminLogin? || op.Complete? || op.RefreshWith?
    ensures Perform(cfg, db, op).0.revoked == db.revoked
  {
    match op
    case Register(reg, userId, salt, ids, now) => RegisterKeepsRevoked(cfg, db, reg, userId, salt, ids, now);
    case UserLogin(email, password, ids, now) => LoginUserKeepsRevoked(cfg, db, email, password, ids, now);
    case AdminLogin(email, password, ids, now) => LoginAdminKeepsRevoked(cfg, db, email, password, ids, now);
    case Complete(partial, code, totp, ids, parsedAt, confirmedAt, mintedAt) =>
      CompleteKeepsRevoked(cfg, db, partial, code, totp, ids, parsedAt, confirmedAt, mintedAt);
    case RefreshWith(raw, ids, checkedAt, mintedAt, revokedAt) =>
      RefreshKeepsRevoked(cfg, db, raw, ids, checkedAt, mintedAt, revokedAt);
  }

  /** No call takes an id out of the set, or replaces its row. */
  lemma PerformKeepsRevoked(cfg: TokenConfig, db: Tables, op: Op, jti: Text)
    requires jti in db.revoked
    ensures var after := Perform(cfg, db, op).0.revoked; jti in after && after[jti] == db.revoked[jti]
  {
    if op.Register? || op.UserLogin? || op.AdminLogin? || op.Complete? || op.RefreshWith? {
      LoginsKeepRevoked(cfg, db, op);
    } else if op.Verify? {
      VerifyKeepsRevoked(db, op.subj, op.code, op.totp, op.now);
    } else if op.ConfirmReset? {
      ConfirmKeepsRevoked(db, op.token, op.password, op.salt, op.checkedAt, op.markedAt, op.revokedAt);
    }
  }

  lemma {:induction false} RunKeepsRevoked(cfg: TokenConfig, r: Run, k: nat, n: nat, jti: Text)
    requires IsRun(cfg, r) && k <= n <= |r.ops| && jti in r.db(k).revoked
    ensures jti in r.db(n).revoked && r.db(n).revoked[jti] == r.db(k).revoked[jti]
    decreases n
  {
    if k < n {
      RunKeepsRevoked(cfg, r, k, n - 1, jti);
      assert StepOk(cfg, r, n - 1);
      PerformKeepsRevoked(cfg, r.db(n - 1), r.ops[n - 1], jti);
    }
  }

  /** Until when the id is refused once a logout has named it: its token's expiry, or the first row's. */
  function RefusedUntil(m: RevokedSet, jti: Text, exp: int): Time {
    if jti in m then m[jti].expiresAt else exp * SECOND
  }

  // ---- Both ----

  /** After a logout, at every later point of the run: the refresh token is refused, and the access token
      is accepted only by a call that parses it before its expiry and queries after the first row of its
      id ran out. */
  lemma LogoutEndsSession(cfg: TokenConfig, r: Run, k: nat, m: nat, c: AccessClaims, jti: Text, mintedAt: Time,
                          audience: string, parsedAt: Time, queriedAt: Time)
    requires IsRun(cfg, r) && k < m < |r.ops| && r.ops[k].LogoutWith? && r.ops[k].raw != Empty
    requires FindRefresh(r.db(k).refresh, Sha256(r.ops[k].raw)).Some?
    requires r.ops[k].access == Some(SignAccess(cfg, c, jti, mintedAt)) && jti != Empty
    requires Live(Unix(mintedAt + cfg.accessTTL), r.ops[k].parsedAt)
    requires audience in ACCESS_AUDIENCES || audience == ""
    ensures r.ops[m].RefreshWith? && r.ops[m].raw == r.ops[k].raw ==>
              OutcomeAt(cfg, r, m) == RefreshOutcome(Err(TokenRevoked))
    ensures var exp := Unix(mintedAt + cfg.accessTTL);
            var t := SignAccess(cfg, c, jti, mintedAt);
            VerifyAccess(cfg, r.db(m).revoked, t, audience, parsedAt, queriedAt).Accepted() <==>
            parsedAt < exp * SECOND && RefusedUntil(r.db(k).revoked, jti, exp) <= queriedAt
  {
    var op := r.ops[k];
    assert StepOk(cfg, r, k);
    LogoutRefuses(r.db(k).refresh, op.raw, op.now);
    RunStaysRefused(cfg, r, k + 1, m, op.raw);
    LogoutRevokes(cfg, r.db(k).revoked, c, jti, mintedAt, op.parsedAt, op.queriedAt);
    RunKeepsRevoked(cfg, r, k + 1, m, jti);
    RevokedTokenVerdict(cfg, r.db(m).revoked, [], c, jti, mintedAt, audience, parsedAt, queriedAt);
    if r.ops[m].RefreshWith? && r.ops[m].raw == op.raw {
      RefusedIsRefused(cfg, r.db(m), op.raw, r.ops[m].ids, r.ops[m].checkedAt, r.ops[m].mintedAt, r.ops[m].revokedAt);
    }
  }
}
