/** What the service promises about its tokens, read off the rows. */
module TokenPromises {
  import opened Domain
  import opened AccessTokens
  import opened Store
  import opened Flows
  import opened Plain

  // ---- Refresh, case by case ----

  lemma UnknownTokenIsRefused(cfg: TokenConfig, db: Tables, raw: Text, ids: MintIds,
                              checkedAt: Time, mintedAt: Time, revokedAt: Time)
    requires NoTokenRow(db, raw)
    ensures Refresh(cfg, db, raw, ids, checkedAt, mintedAt, revokedAt) == (db, Err(Unauthorized))
  {
  }

  /** A revoked token, and one at or past its expiry, is refused and revokes all tokens of its owner, and
      those only. */
  lemma StaleTokenRevokesItsOwner(cfg: TokenConfig, db: Tables, raw: Text, ids: MintIds,
                                  checkedAt: Time, mintedAt: Time, revokedAt: Time, i: nat)
    requires TokenRow(db, raw, i)
    requires db.refresh[i].revokedAt.Some? || db.refresh[i].expiresAt <= checkedAt
    ensures var (d, r) := Refresh(cfg, db, raw, ids, checkedAt, mintedAt, revokedAt);
            && r == Err(TokenRevoked)
            && d == db.(refresh := d.refresh) && OwnerRevoked(db.refresh, d.refresh, db.refresh[i], revokedAt)
  {
    TokenRowIsFound(db, raw, i);
    OwnerIsRevoked(db.refresh, db.refresh[i], revokedAt);
  }

  lemma StaleTokensAreRefused(cfg: TokenConfig, db: Tables, raw: Text, ids: MintIds,
                              checkedAt: Time, mintedAt: Time, revokedAt: Time)
    ensures var (d, r) := Refresh(cfg, db, raw, ids, checkedAt, mintedAt, revokedAt);
            forall i: nat :: TokenRow(db, raw, i) && Stale(db.refresh[i], checkedAt) ==>
              r == Err(TokenRevoked) && OwnerRevoked(db.refresh, d.refresh, db.refresh[i], revokedAt)
  {
    forall i: nat | TokenRow(db, raw, i) && Stale(db.refresh[i], checkedAt)
      ensures var (d, r) := Refresh(cfg, db, raw, ids, checkedAt, mintedAt, revokedAt);
              r == Err(TokenRevoked) && OwnerRevoked(db.refresh, d.refresh, db.refresh[i], revokedAt)
    {
      StaleTokenRevokesItsOwner(cfg, db, raw, ids, checkedAt, mintedAt, revokedAt, i);
    }
  }

  /** The account of a row, as it stands: of the user when the row names one, else of the admin. */
  ghost predicate LiveOwner(db: Tables, row: RefreshToken, sub: Text, typ: Typ, role: Text, email: string) {
    || (exists k: nat :: && row.userId.Some? && UserRow(db, row.userId.value, k) && db.users[k].deletedAt.None?
                    && sub == db.users[k].id && typ == TypUser && role == ROLE_USER && email == db.users[k].email)
    || (exists k: nat :: && row.userId.None? && row.adminId.Some? && AdminRow(db, row.adminId.value, k)
                    && sub == db.admins[k].id && typ == TypAdmin
                    && role == db.admins[k].role && email == db.admins[k].email)
  }

  /** No account: no owner at all, a user that is missing or soft-deleted, an admin that is missing. */
  ghost predicate NoLiveOwner(db: Tables, row: RefreshToken) {
    if row.userId.Some? then forall k: nat :: UserRow(db, row.userId.value, k) ==> db.users[k].deletedAt.Some?
    else row.adminId.Some? ==> forall k: nat :: !AdminRow(db, row.adminId.value, k)
  }

  lemma AccountOfOwner(db: Tables, row: RefreshToken, sub: Text, typ: Typ, role: Text, email: string)
    requires LiveOwner(db, row, sub, typ, role, email)
    ensures row.Owner() != ZERO_SUBJECT
    ensures AccountClaims(db, row.Owner()) == Ok(AccessClaims(sub, Some(typ), role, email, 0, 0, Empty))
  {
    if row.userId.Some? {
      var k: nat :| UserRow(db, row.userId.value, k) && db.users[k].deletedAt.None? && email == db.users[k].email;
      UserRowIsFound(db, row.userId.value, k);
    } else {
      var k: nat :| AdminRow(db, row.adminId.value, k) && email == db.admins[k].email && role == db.admins[k].role;
      AdminRowIsFound(db, row.adminId.value, k);
    }
  }

  lemma NoAccountOfOwner(db: Tables, row: RefreshToken)
    requires NoLiveOwner(db, row)
    ensures row.Owner() == ZERO_SUBJECT || AccountClaims(db, row.Owner()) == Err(Unauthorized)
  {
    if row.userId.Some? {
      var at := FindUser(db.users, row.userId.value);
      if at.Some? {
        assert UserRow(db, row.userId.value, at.value);
      }
    } else if row.adminId.Some? {
      var at := FindAdmin(db.admins, row.adminId.value);
      if at.Some? {
        assert AdminRow(db, row.adminId.value, at.value);
      }
    }
  }

  /** A live token without a live account is refused, and nothing changes. */
  lemma DeadAccountIsRefused(cfg: TokenConfig, db: Tables, raw: Text, ids: MintIds,
                             checkedAt: Time, mintedAt: Time, revokedAt: Time, i: nat)
    requires TokenRow(db, raw, i) && db.refresh[i].revokedAt.None? && checkedAt < db.refresh[i].expiresAt
    requires NoLiveOwner(db, db.refresh[i])
    ensures Refresh(cfg, db, raw, ids, checkedAt, mintedAt, revokedAt) == (db, Err(Unauthorized))
  {
    TokenRowIsFound(db, raw, i);
    NoAccountOfOwner(db, db.refresh[i]);
  }

  /** The presented id is revoked, a new row is added at the end, and no row changes otherwise. */
  ghost predicate RowsRotated(rows: seq<RefreshToken>, after: seq<RefreshToken>, id: Text, row: RefreshToken,
                              now: Time) {
    && |after| == |rows| + 1 && after[|rows|] == row
    && forall i :: 0 <= i < |rows| ==>
         if rows[i].id == id && rows[i].revokedAt.None?
         then after[i] == rows[i].(revokedAt := Some(now), replacedById := None) else after[i] == rows[i]
  }

  /** A live token of a live account is rotated: the session speaks for the account as it stands, the new
      row has the owner of the old one and the full lifetime, and the old row is revoked. */
  lemma LiveTokenIsRotated(cfg: TokenConfig, db: Tables, raw: Text, ids: MintIds,
                           checkedAt: Time, mintedAt: Time, revokedAt: Time, i: nat,
                           sub: Text, typ: Typ, role: Text, email: string)
    requires TokenRow(db, raw, i) && db.refresh[i].revokedAt.None? && checkedAt < db.refresh[i].expiresAt
    requires LiveOwner(db, db.refresh[i], sub, typ, role, email) && FreeRowId(db, ids.rowId)
    ensures var (d, r) := Refresh(cfg, db, raw, ids, checkedAt, mintedAt, revokedAt);
            var presented := db.refresh[i];
            var row := RowOfSession(cfg, presented.userId, if presented.userId.Some? then None else presented.adminId,
                                    ids, mintedAt);
            && r.Ok? && SessionIs(cfg, r.value, sub, typ, role, email, ids, mintedAt)
            && d == db.(refresh := d.refresh) && RowsRotated(db.refresh, d.refresh, presented.id, row, revokedAt)
  {
    TokenRowIsFound(db, raw, i);
    AccountOfOwner(db, db.refresh[i], sub, typ, role, email);
    var row := db.refresh[i];
    assert Revocable((db.refresh + [NewRow(cfg, row.Owner(), ids, mintedAt)])[i], row.id);
  }

  /** A taken row id fails the insert, and nothing changes. */
  lemma TakenIdIsRefused(cfg: TokenConfig, db: Tables, raw: Text, ids: MintIds,
                         checkedAt: Time, mintedAt: Time, revokedAt: Time, i: nat,
                         sub: Text, typ: Typ, role: Text, email: string)
    requires TokenRow(db, raw, i) && db.refresh[i].revokedAt.None? && checkedAt < db.refresh[i].expiresAt
    requires LiveOwner(db, db.refresh[i], sub, typ, role, email) && !FreeRowId(db, ids.rowId)
    ensures Refresh(cfg, db, raw, ids, checkedAt, mintedAt, revokedAt) == (db, Err(Internal))
  {
    TokenRowIsFound(db, raw, i);
    AccountOfOwner(db, db.refresh[i], sub, typ, role, email);
  }

  /** A refresh token lives for its whole lifetime and no longer: the one that a refresh hands out is itself
      accepted at every time before it, and at none from then on. */
  lemma NewTokenLivesItsLifetime(cfg: TokenConfig, db: Tables, raw: Text, ids: MintIds,
                                 checkedAt: Time, mintedAt: Time, revokedAt: Time, i: nat,
                                 sub: Text, typ: Typ, role: Text, email: string,
                                 next: MintIds, at: Time, mintedAt2: Time, revokedAt2: Time)
    requires TokenRow(db, raw, i) && db.refresh[i].revokedAt.None? && checkedAt < db.refresh[i].expiresAt
    requires LiveOwner(db, db.refresh[i], sub, typ, role, email) && FreeRowId(db, ids.rowId)
    requires NoTokenRow(db, ids.raw) && FreeRowId(db, next.rowId) && next.rowId != ids.rowId
    ensures var d := Refresh(cfg, db, raw, ids, checkedAt, mintedAt, revokedAt).0;
            var r := Refresh(cfg, d, ids.raw, next, at, mintedAt2, revokedAt2).1;
            if at < mintedAt + cfg.refreshTTL
            then r.Ok? && SessionIs(cfg, r.value, sub, typ, role, email, next, mintedAt2)
            else r == Err(TokenRevoked)
  {
    LiveTokenIsRotated(cfg, db, raw, ids, checkedAt, mintedAt, revokedAt, i, sub, typ, role, email);
    var d := Refresh(cfg, db, raw, ids, checkedAt, mintedAt, revokedAt).0;
    NewRowIsFirst(db, d, ids.raw, db.refresh[i].id, d.refresh[|db.refresh|], revokedAt);
    SameOwner(db, d, db.refresh[i], d.refresh[|db.refresh|], sub, typ, role, email);
    if at < mintedAt + cfg.refreshTTL {
      RotatedIds(db, d, db.refresh[i].id, d.refresh[|db.refresh|], revokedAt, next.rowId);
      LiveTokenIsRotated(cfg, d, ids.raw, next, at, mintedAt2, revokedAt2, |db.refresh|, sub, typ, role, email);
    } else {
      StaleTokenRevokesItsOwner(cfg, d, ids.raw, next, at, mintedAt2, revokedAt2, |db.refresh|);
    }
  }

  lemma NewRowIsFirst(db: Tables, d: Tables, raw: Text, id: Text, row: RefreshToken, now: Time)
    requires NoTokenRow(db, raw) && RowsRotated(db.refresh, d.refresh, id, row, now) && row.tokenHash == Sha256(raw)
    ensures TokenRow(d, raw, |db.refresh|)
  {
  }

  lemma RotatedIds(db: Tables, d: Tables, id: Text, row: RefreshToken, now: Time, free: Text)
    requires FreeRowId(db, free) && RowsRotated(db.refresh, d.refresh, id, row, now) && row.id != free
    ensures FreeRowId(d, free)
  {
  }

  lemma SameOwner(db: Tables, d: Tables, a: RefreshToken, b: RefreshToken, sub: Text, typ: Typ, role: Text,
                  email: string)
    requires LiveOwner(db, a, sub, typ, role, email) && d.users == db.users && d.admins == db.admins
    requires b.userId == a.userId && b.adminId == if a.userId.Some? then None else a.adminId
    ensures LiveOwner(d, b, sub, typ, role, email)
  {
    if a.userId.Some? {
      var k: nat :| UserRow(db, a.userId.value, k) && db.users[k].deletedAt.None? && email == db.users[k].email;
      assert UserRow(d, b.userId.value, k);
    } else {
      var k: nat :| AdminRow(db, a.adminId.value, k) && email == db.admins[k].email && role == db.admins[k].role;
      assert AdminRow(d, b.adminId.value, k);
    }
  }

  // ---- Logout and revoked ids ----

  /** The unrevoked rows of this id are revoked, and no row changes otherwise. */
  ghost predicate IdRevoked(rows: seq<RefreshToken>, after: seq<RefreshToken>, id: Text, now: Time) {
    && |after| == |rows|
    && forall i :: 0 <= i < |rows| ==>
         if rows[i].id == id && rows[i].revokedAt.None?
         then after[i] == rows[i].(revokedAt := Some(now), replacedById := None) else after[i] == rows[i]
  }

  /** A logout touches the row of its token and the id of its access token, and nothing else. */
  lemma LogoutReachesItsRow(db: Tables, raw: Text, jti: Text, exp: Time, now: Time, i: nat)
    requires raw != Empty && TokenRow(db, raw, i)
    ensures var d := Logout(db, raw, jti, exp, now);
            && d == db.(refresh := d.refresh, revoked := d.revoked)
            && IdRevoked(db.refresh, d.refresh, db.refresh[i].id, now) && d.refresh[i].revokedAt.Some?
            && d.revoked == if jti == Empty || jti in db.revoked then db.revoked
                            else db.revoked[jti := RevokedJTI(exp, "logout")]
  {
    TokenRowIsFound(db, raw, i);
  }

  lemma LogoutWithoutRow(db: Tables, raw: Text, jti: Text, exp: Time, now: Time)
    requires raw == Empty || NoTokenRow(db, raw)
    ensures var d := Logout(db, raw, jti, exp, now);
            && d == db.(revoked := d.revoked)
            && d.revoked == if jti == Empty || jti in db.revoked then db.revoked
                            else db.revoked[jti := RevokedJTI(exp, "logout")]
  {
  }

  /** The endpoint for revoking an id adds that id with that expiry and reason, unless it has a row. */
  lemma RevokingAddsTheRow(db: Tables, jti: Text, expiresAt: Time, reason: string)
    ensures var (d, r) := RevokeJTI(db, jti, expiresAt, reason);
            if jti == Empty then d == db && r == Err(InvalidInput)
            else && r == Ok(())
                 && d == db.(revoked := if jti in db.revoked then db.revoked
                                        else db.revoked[jti := RevokedJTI(expiresAt, reason)])
  {
  }

  /** The logout handler names a live access token's own id, until its own expiry. */
  lemma LogoutNamesTheToken(cfg: TokenConfig, db: Tables, raw: Text, t: Token, sub: Text, typ: Typ, role: Text,
                            email: string, jti: Text, mintedAt: Time, parsedAt: Time, queriedAt: Time, now: Time)
    requires AccessTokenIs(cfg, t, sub, typ, role, email, jti, mintedAt) && jti != Empty
    ensures var exp := (mintedAt + cfg.accessTTL) / 1_000_000_000 * 1_000_000_000;
            LogoutRequest(cfg, db, raw, Some(t), parsedAt, queriedAt, now) ==
            Logout(db, raw, if parsedAt < exp then jti else Empty, exp, now)
  {
    var c := AccessClaims(sub, Some(typ), role, email, 0, 0, Empty);
    assert t == SignAccess(cfg, c, jti, mintedAt);
    VerifyUndoesMint(cfg, db.revoked, c, jti, mintedAt, "", parsedAt, queriedAt);
  }

  /** A token that does not verify, expired ones included, names nothing. */
  lemma LogoutIgnoresBadTokens(cfg: TokenConfig, db: Tables, raw: Text, access: Option<Token>, parsedAt: Time,
                               queriedAt: Time, now: Time)
    requires access.Some? ==> ParseDualSign(cfg, access.value, "viralefy-api", parsedAt).Err?
    ensures LogoutRequest(cfg, db, raw, access, parsedAt, queriedAt, now) == Logout(db, raw, Empty, 0, now)
  {
  }

  // ---- Access tokens ----

  /** Signed by the service's RSA key with RS256, or by the legacy secret with HS256 while there is one. */
  predicate OwnSignature(cfg: TokenConfig, t: Token) {
    && t.Jwt?
    && (|| (t.alg == RS256 && t.signedWith == RsaKey(cfg.rsa))
        || (t.alg == HS256 && cfg.legacy.Some? && t.signedWith == HmacKey(cfg.legacy.value)))
  }

  /** The whole answer of the parser for a named audience: what is accepted, and which complaint comes first. */
  lemma ParserAnswers(cfg: TokenConfig, t: Token, audience: string, now: Time)
    requires audience != ""
    ensures var r := ParseDualSign(cfg, t, audience, now);
            && (!OwnSignature(cfg, t) ==> r == Err(TokenMalformed))
            && (OwnSignature(cfg, t) ==>
                  var c := t.claims;
                  var expired := c.exp.Some? && c.exp.value * 1_000_000_000 <= now;
                  var named := c.iss == "viralefy-auth" && audience in c.aud;
                  var early := c.nbf.Some? && now < c.nbf.value * 1_000_000_000;
                  r == if expired then Err(TokenExpired)
                       else if c.exp.None? || !named then Err(TokenMalformed)
                       else if early then Err(Unauthorized)
                       else Ok(c))
  {
    if t.Jwt? && audience in t.claims.aud {
      assert !NoAudience(t.claims.aud);
    }
  }

  /** Verification: an accepted token parses for the audience, the service's API when none is named, and its
      id is not in a running row of the revoked set; then the claims are the token's own. */
  lemma VerificationAnswers(cfg: TokenConfig, m: RevokedSet, t: Token, audience: string, parsedAt: Time,
                            queriedAt: Time)
    ensures var v := VerifyAccess(cfg, m, t, audience, parsedAt, queriedAt);
            var parsed := ParseDualSign(cfg, t, if audience == "" then "viralefy-api" else audience, parsedAt);
            && (parsed.Err? ==> v == Verdict(None, Some(parsed.error)))
            && (parsed.Ok? ==>
                  var c := t.claims;
                  var revoked := c.jti.Some? && c.jti.value != Empty && c.jti.value in m
                                 && queriedAt < m[c.jti.value].expiresAt;
                  && v.error == (if revoked then Some(TokenRevoked) else None)
                  && v.claims.Some?
                  && v.claims.value.sub == (if c.sub.Some? then c.sub.value else Empty) && v.claims.value.typ == c.typ
                  && v.claims.value.role == (if c.role.Some? then c.role.value else Empty)
                  && v.claims.value.email == (if c.email.Some? then c.email.value else "")
                  && v.claims.value.exp == c.exp.value && v.claims.value.iat == (if c.iat.Some? then c.iat.value else 0)
                  && v.claims.value.jti == if c.jti.Some? then c.jti.value else Empty)
  {
  }

  /** An access token of the service is accepted by its four consumers, or when none is named, until its
      expiry, and by no one else. */
  lemma AccessTokensNameTheirConsumers(cfg: TokenConfig, t: Token, sub: Text, typ: Typ, role: Text, email: string,
                                       jti: Text,
                                       mintedAt: Time, audience: string, now: Time)
    requires AccessTokenIs(cfg, t, sub, typ, role, email, jti, mintedAt)
    ensures VerifyAccess(cfg, map[], t, audience, now, now).Accepted() <==>
            && now < (mintedAt + cfg.accessTTL) / 1_000_000_000 * 1_000_000_000
            && audience in ["", "viralefy-api", "viralefy-core", "viralefy-payments", "viralefy-sender"]
  {
    var named := if audience == "" then "viralefy-api" else audience;
    ParserAnswers(cfg, t, named, now);
    var consumers := ["viralefy-api", "viralefy-core", "viralefy-payments", "viralefy-sender"];
    assert consumers[0] == "viralefy-api";
    assert ["", "viralefy-api", "viralefy-core", "viralefy-payments", "viralefy-sender"] == [""] + consumers;
  }

  /** A partial token parses for five minutes, back to the subject it was made for. */
  lemma PartialTokensLiveFiveMinutes(cfg: TokenConfig, t: Token, sub: Text, admin: bool, mintedAt: Time, now: Time)
    requires PartialTokenIs(cfg, t, sub, if admin then TypAdminPartial else TypUserPartial, mintedAt) && sub != Empty
    ensures ParsePartialToken(cfg, t, now) ==
            if now < (mintedAt + 300_000_000_000) / 1_000_000_000 * 1_000_000_000
            then Ok(if admin then Subject(KindAdmin, Empty, sub) else Subject(KindUser, sub, Empty))
            else Err(TokenExpired)
  {
    assert ["viralefy-auth"][0] == "viralefy-auth";
    ParserAnswers(cfg, t, "viralefy-auth", now);
  }

  /** Only a token that parses for the service itself, names a subject and is of a partial kind is taken. */
  lemma OnlyPartialTokensParse(cfg: TokenConfig, t: Token, now: Time)
    ensures var parsed := ParseDualSign(cfg, t, "viralefy-auth", now);
            && (parsed.Err? ==> ParsePartialToken(cfg, t, now) == Err(parsed.error))
            && (parsed.Ok? ==>
                  var c := t.claims;
                  ParsePartialToken(cfg, t, now) ==
                  if c.sub.None? || c.sub.value == Empty then Err(Unauthorized)
                  else if c.typ == Some(TypAdminPartial) then Ok(Subject(KindAdmin, Empty, c.sub.value))
                  else if c.typ == Some(TypUserPartial) then Ok(Subject(KindUser, c.sub.value, Empty))
                  else Err(Unauthorized))
  {
  }
}
