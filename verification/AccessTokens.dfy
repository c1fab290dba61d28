/** Access tokens and partial tokens: minting, the acceptance rules of parseDualSign, and the
    set of revoked token ids. A signature is the key it was made with; claims follow
    section 4.1 of RFC 7519. */
module AccessTokens {
  import opened Domain

  const ISSUER := "viralefy-auth"
  const AUDIENCE_PARTIAL_2FA := "viralefy-auth"
  const AUDIENCE_API := "viralefy-api"
  const ACCESS_AUDIENCES := [AUDIENCE_API, "viralefy-core", "viralefy-payments", "viralefy-sender"]

  datatype Alg = RS256 | HS256 | OtherRsa | OtherHmac | NoSignature | OtherAlg

  datatype Key = RsaKey(n: nat) | HmacKey(n: nat)

  datatype Typ = TypUser | TypAdmin | TypUserPartial | TypAdminPartial | OtherTyp

  datatype Claims = Claims(sub: Option<Text>, typ: Option<Typ>, exp: Option<int>, nbf: Option<int>, iat: Option<int>,
                           jti: Option<Text>, iss: string, aud: seq<string>, role: Option<Text>, email: Option<string>)

  datatype Token = Jwt(alg: Alg, signedWith: Key, claims: Claims) | NotJwt

  /** The typed claims handed to callers. */
  datatype AccessClaims = AccessClaims(sub: Text, typ: Option<Typ>, role: Text, email: string, exp: int, iat: int,
                                       jti: Text)

  /** `legacy` is the HS256 secret still accepted for old tokens, if any. */
  datatype TokenConfig = TokenConfig(rsa: nat, legacy: Option<nat>, accessTTL: Time, refreshTTL: Time)

  // ---- Minting ----

  function NonEmpty(t: Text): Option<Text> {
    if t == Empty then None else Some(t)
  }

  /** The signed access token of `mint`: `iat`, `exp` and `jti` are filled in at `now`. */
  function SignAccess(cfg: TokenConfig, c: AccessClaims, jti: Text, now: Time): Token {
    Jwt(RS256, RsaKey(cfg.rsa),
        Claims(Some(c.sub), c.typ, Some(Unix(now + cfg.accessTTL)), None, Some(Unix(now)), Some(jti), ISSUER,
               ACCESS_AUDIENCES, NonEmpty(c.role), if c.email == "" then None else Some(c.email)))
  }

  function MintPartial2FA(cfg: TokenConfig, subj: Subject, now: Time): Token {
    Jwt(RS256, RsaKey(cfg.rsa),
        Claims(Some(subj.ID()), Some(if subj.kind == KindAdmin then TypAdminPartial else TypUserPartial),
               Some(Unix(now + 5 * MINUTE)), None, Some(Unix(now)), None, ISSUER, [AUDIENCE_PARTIAL_2FA], None, None))
  }

  // ---- Acceptance ----

  /** The key function and the signature check; only RS256 and HS256 are on the list of methods. */
  predicate SignatureAccepted(cfg: TokenConfig, t: Token)
    requires t.Jwt?
  {
    || (t.alg == RS256 && t.signedWith == RsaKey(cfg.rsa))
    || (t.alg == HS256 && cfg.legacy.Some? && t.signedWith == HmacKey(cfg.legacy.value))
  }

  predicate NoAudience(aud: seq<string>) {
    |aud| == 0 || (|aud| == 1 && aud[0] == "")
  }

  /** An expiry is live strictly before its second begins. */
  predicate Live(exp: int, now: Time) {
    now < exp * SECOND
  }

  /** parseDualSign: the library collects every failed claim, and the service reports expiry first. */
  function ParseDualSign(cfg: TokenConfig, t: Token, audience: string, now: Time): Result<Claims> {
    if t.NotJwt? || !SignatureAccepted(cfg, t) then Err(TokenMalformed) else
      var c := t.claims;
      if c.exp.Some? && !Live(c.exp.value, now) then Err(TokenExpired)
      else if c.exp.None? || c.iss != ISSUER then Err(TokenMalformed)
      else if audience != "" && (NoAudience(c.aud) || audience !in c.aud) then Err(TokenMalformed)
      else if c.nbf.Some? && now < c.nbf.value * SECOND then Err(Unauthorized)
      else Ok(c)
  }

  function TextOr(o: Option<Text>): Text {
    if o.Some? then o.value else Empty
  }

  function Typed(c: Claims): AccessClaims {
    AccessClaims(TextOr(c.sub), c.typ, TextOr(c.role), if c.email.Some? then c.email.value else "",
                 if c.exp.Some? then c.exp.value else 0, if c.iat.Some? then c.iat.value else 0, TextOr(c.jti))
  }

  function ParsePartialToken(cfg: TokenConfig, t: Token, now: Time): Result<Subject> {
    var parsed := ParseDualSign(cfg, t, AUDIENCE_PARTIAL_2FA, now);
    if parsed.Err? then Err(parsed.error) else
      var c := parsed.value;
      if TextOr(c.sub) == Empty || c.typ !in {Some(TypUserPartial), Some(TypAdminPartial)} then Err(Unauthorized)
      else if c.typ == Some(TypAdminPartial) then Ok(AdminSubject(TextOr(c.sub)))
      else Ok(UserSubject(TextOr(c.sub)))
  }

  // ---- The revoked ids ----

  type RevokedSet = map<Text, RevokedJTI>

  /** INSERT ... ON CONFLICT (jti) DO NOTHING: the first row of an id stays. */
  function AddRevoked(m: RevokedSet, jti: Text, row: RevokedJTI): RevokedSet {
    if jti in m then m else m[jti := row]
  }

  predicate IsRevoked(m: RevokedSet, jti: Text, now: Time) {
    jti in m && m[jti].expiresAt > now
  }

  /** Claims, when there are any, beside the error: a revoked token yields both. */
  datatype Verdict = Verdict(claims: Option<AccessClaims>, error: Option<Error>) {
    predicate Accepted() {
      error.None?
    }
  }

  /** VerifyAccess reads the clock twice: once to parse, once in the query of the revoked ids. */
  function VerifyAccess(cfg: TokenConfig, m: RevokedSet, t: Token, audience: string, parsedAt: Time,
                        queriedAt: Time): Verdict {
    var parsed := ParseDualSign(cfg, t, if audience == "" then AUDIENCE_API else audience, parsedAt);
    if parsed.Err? then Verdict(None, Some(parsed.error)) else
      var c := Typed(parsed.value);
      if c.jti != Empty && IsRevoked(m, c.jti, queriedAt) then Verdict(Some(c), Some(TokenRevoked))
      else Verdict(Some(c), None)
  }

  /** The access half of the logout handler: a token that verifies, or is already revoked, has its
      id added until exactly its own expiry. */
  function LogoutAccess(cfg: TokenConfig, m: RevokedSet, t: Token, parsedAt: Time, queriedAt: Time): RevokedSet {
    var v := VerifyAccess(cfg, m, t, "", parsedAt, queriedAt);
    if v.error in {None, Some(TokenRevoked)} && v.claims.Some? && v.claims.value.jti != Empty
    then AddRevoked(m, v.claims.value.jti, RevokedJTI(v.claims.value.exp * SECOND, "logout"))
    else m
  }

  // ---- Mint and verify undo each other ----

  lemma AudiencesDiffer()
    ensures AUDIENCE_PARTIAL_2FA !in ACCESS_AUDIENCES && "" !in ACCESS_AUDIENCES
    ensures AUDIENCE_API != AUDIENCE_PARTIAL_2FA
  {
    assert "viralefy-core"[9] != AUDIENCE_PARTIAL_2FA[9];
  }

  /** Before expiry and unrevoked, verification returns exactly what was minted, for every consumer. */
  lemma VerifyUndoesMint(cfg: TokenConfig, m: RevokedSet, c: AccessClaims, jti: Text, mintedAt: Time,
                         audience: string, parsedAt: Time, queriedAt: Time)
    requires audience in ACCESS_AUDIENCES || audience == ""
    ensures var t := SignAccess(cfg, c, jti, mintedAt);
            var exp := Unix(mintedAt + cfg.accessTTL);
            VerifyAccess(cfg, m, t, audience, parsedAt, queriedAt) ==
            if !Live(exp, parsedAt) then Verdict(None, Some(TokenExpired))
            else Verdict(Some(c.(exp := exp, iat := Unix(mintedAt), jti := jti)),
                         if jti != Empty && IsRevoked(m, jti, queriedAt) then Some(TokenRevoked) else None)
  {
    AudiencesDiffer();
    assert ACCESS_AUDIENCES[0] == AUDIENCE_API;
  }

  /** A live partial token passes VerifyAccess for one audience only, the service's own name, and so
      for none of the access audiences. */
  lemma PartialIsNotAccess(cfg: TokenConfig, m: RevokedSet, subj: Subject, mintedAt: Time, audience: string,
                           parsedAt: Time, queriedAt: Time)
    ensures VerifyAccess(cfg, m, MintPartial2FA(cfg, subj, mintedAt), audience, parsedAt, queriedAt).Accepted() <==>
            Live(Unix(mintedAt + 5 * MINUTE), parsedAt) && audience == AUDIENCE_PARTIAL_2FA
    ensures audience in ACCESS_AUDIENCES || audience == "" ==>
              !VerifyAccess(cfg, m, MintPartial2FA(cfg, subj, mintedAt), audience, parsedAt, queriedAt).Accepted()
  {
    AudiencesDiffer();
    assert [AUDIENCE_PARTIAL_2FA][0] == AUDIENCE_PARTIAL_2FA;
  }

  /** The subject of a partial token comes back exactly until the token expires. */
  lemma ParseUndoesMintPartial(cfg: TokenConfig, subj: Subject, mintedAt: Time, now: Time)
    requires subj.Proper()
    ensures ParsePartialToken(cfg, MintPartial2FA(cfg, subj, mintedAt), now) ==
            if Live(Unix(mintedAt + 5 * MINUTE), now) then Ok(subj) else Err(TokenExpired)
  {
    assert [AUDIENCE_PARTIAL_2FA][0] == AUDIENCE_PARTIAL_2FA;
  }

  /** No access token is ever taken for a partial token. */
  lemma AccessIsNotPartial(cfg: TokenConfig, c: AccessClaims, jti: Text, mintedAt: Time, now: Time)
    ensures ParsePartialToken(cfg, SignAccess(cfg, c, jti, mintedAt), now).Err?
  {
    AudiencesDiffer();
  }

  /** What parsing demands: an accepted token was signed with a key of the service, names the
      issuer and the audience, and has an expiry that lies ahead. */
  lemma AcceptedTokens(cfg: TokenConfig, t: Token, audience: string, now: Time)
    requires audience != ""
    ensures ParseDualSign(cfg, t, audience, now).Ok? <==>
            && t.Jwt?
            && SignatureAccepted(cfg, t)
            && t.claims.iss == ISSUER
            && audience in t.claims.aud
            && t.claims.exp.Some? && now < t.claims.exp.value * SECOND
            && (t.claims.nbf.Some? ==> t.claims.nbf.value * SECOND <= now)
  {
    if t.Jwt? && audience in t.claims.aud {
      assert !NoAudience(t.claims.aud);
    }
  }

  /** Acceptance of a token lasts for one stretch of time, with the same claims throughout, and a token
      accepted for one audience is accepted for another exactly when it names that one too. */
  lemma AcceptanceIsAStretch(cfg: TokenConfig, t: Token, first: string, second: string, a: Time, b: Time, c: Time)
    requires a <= b <= c && first != "" && second != ""
    requires ParseDualSign(cfg, t, first, a).Ok? && ParseDualSign(cfg, t, first, c).Ok?
    ensures ParseDualSign(cfg, t, first, b) == ParseDualSign(cfg, t, first, a) == ParseDualSign(cfg, t, first, c)
    ensures ParseDualSign(cfg, t, second, b).Ok? <==> second in t.claims.aud
  {
    AcceptedTokens(cfg, t, first, a);
    AcceptedTokens(cfg, t, first, c);
    AcceptedTokens(cfg, t, first, b);
    AcceptedTokens(cfg, t, second, b);
  }

  /** Expiry is final: once reported, whoever asks, it is what every later call reports. */
  lemma ExpiryIsFinal(cfg: TokenConfig, t: Token, first: string, second: string, now: Time, later: Time)
    requires now <= later && ParseDualSign(cfg, t, first, now) == Err(TokenExpired)
    ensures ParseDualSign(cfg, t, second, later) == Err(TokenExpired)
  {
  }

  // ---- Revocation ----

  /** Adding ids one after another. */
  function AddAll(m: RevokedSet, adds: seq<(Text, RevokedJTI)>, n: nat): RevokedSet
    requires n <= |adds|
  {
    if n == 0 then m else AddRevoked(AddAll(m, adds, n - 1), adds[n - 1].0, adds[n - 1].1)
  }

  /** Later additions never replace the first row of an id. */
  lemma {:induction false} FirstAddStays(m: RevokedSet, adds: seq<(Text, RevokedJTI)>, n: nat, jti: Text)
    requires n <= |adds| && jti in m
    ensures jti in AddAll(m, adds, n) && AddAll(m, adds, n)[jti] == m[jti]
  {
    if n > 0 {
      FirstAddStays(m, adds, n - 1, jti);
    }
  }

  /** Row number `i` is the first that was added for the id. */
  predicate FirstAdded(adds: seq<(Text, RevokedJTI)>, n: nat, jti: Text, i: nat)
    requires n <= |adds|
  {
    i < n && adds[i].0 == jti && forall j :: 0 <= j < i ==> adds[j].0 != jti
  }

  /** The set refuses an id exactly while the first row ever added for it runs, and never an id for which
      none was added. */
  lemma {:induction false} FirstRowDecides(adds: seq<(Text, RevokedJTI)>, n: nat, jti: Text, i: nat, now: Time)
    requires n <= |adds|
    ensures var m := AddAll(map[], adds, n);
            && (FirstAdded(adds, n, jti, i) ==>
                  && jti in m && m[jti] == adds[i].1
                  && (IsRevoked(m, jti, now) <==> now < adds[i].1.expiresAt))
            && ((forall j :: 0 <= j < n ==> adds[j].0 != jti) ==> jti !in m && !IsRevoked(m, jti, now))
  {
    if n > 0 {
      FirstRowDecides(adds, n - 1, jti, i, now);
    }
  }

  /** Once an id is in the set, and whatever is added later, a call of VerifyAccess refuses the token
      unless the token was still live when parsed and the first row had run out when queried. */
  lemma RevokedTokenVerdict(cfg: TokenConfig, m: RevokedSet, adds: seq<(Text, RevokedJTI)>, c: AccessClaims, jti: Text,
                            mintedAt: Time, audience: string, parsedAt: Time, queriedAt: Time)
    requires jti != Empty && jti in m && (audience in ACCESS_AUDIENCES || audience == "")
    ensures var t := SignAccess(cfg, c, jti, mintedAt);
            !VerifyAccess(cfg, AddAll(m, adds, |adds|), t, audience, parsedAt, queriedAt).Accepted() <==>
            !Live(Unix(mintedAt + cfg.accessTTL), parsedAt) || queriedAt < m[jti].expiresAt
  {
    FirstAddStays(m, adds, |adds|, jti);
    VerifyUndoesMint(cfg, AddAll(m, adds, |adds|), c, jti, mintedAt, audience, parsedAt, queriedAt);
  }

  ghost predicate RefusedAt(cfg: TokenConfig, m: RevokedSet, adds: seq<(Text, RevokedJTI)>, t: Token, audience: string,
                            now: Time) {
    !VerifyAccess(cfg, AddAll(m, adds, |adds|), t, audience, now, now).Accepted()
  }

  /** Revocation has no gap, for calls whose two clock readings agree, exactly when the first row
      lives as long as the token. */
  lemma RevocationHasNoGap(cfg: TokenConfig, m: RevokedSet, adds: seq<(Text, RevokedJTI)>, c: AccessClaims, jti: Text,
                           mintedAt: Time, audience: string)
    requires jti != Empty && jti in m && (audience in ACCESS_AUDIENCES || audience == "")
    ensures (forall now :: RefusedAt(cfg, m, adds, SignAccess(cfg, c, jti, mintedAt), audience, now)) <==>
            m[jti].expiresAt >= Unix(mintedAt + cfg.accessTTL) * SECOND
  {
    var exp, t := Unix(mintedAt + cfg.accessTTL), SignAccess(cfg, c, jti, mintedAt);
    forall now
      ensures RefusedAt(cfg, m, adds, t, audience, now) <==> !Live(exp, now) || now < m[jti].expiresAt
    {
      RevokedTokenVerdict(cfg, m, adds, c, jti, mintedAt, audience, now, now);
    }
    if m[jti].expiresAt < exp * SECOND {
      assert !RefusedAt(cfg, m, adds, t, audience, m[jti].expiresAt);
    }
  }

  /** Logging out with a live token leaves its id in the set, until the token's own expiry unless an
      earlier row was there first. */
  lemma LogoutRevokes(cfg: TokenConfig, m: RevokedSet, c: AccessClaims, jti: Text, mintedAt: Time, parsedAt: Time,
                      queriedAt: Time)
    requires jti != Empty && Live(Unix(mintedAt + cfg.accessTTL), parsedAt)
    ensures var after := LogoutAccess(cfg, m, SignAccess(cfg, c, jti, mintedAt), parsedAt, queriedAt);
            && jti in after
            && after[jti].expiresAt == if jti in m then m[jti].expiresAt else Unix(mintedAt + cfg.accessTTL) * SECOND
  {
    VerifyUndoesMint(cfg, m, c, jti, mintedAt, "", parsedAt, queriedAt);
  }

  /** The two readings of one call matter: with a row that lives exactly as long as the token, as
      logout leaves it, the call accepts the revoked token exactly when the expiry falls after the
      parse and not after the query. */
  lemma ExpiryBetweenReadings(cfg: TokenConfig, m: RevokedSet, c: AccessClaims, jti: Text, mintedAt: Time,
                              parsedAt: Time, queriedAt: Time)
    requires jti != Empty && jti in m && m[jti].expiresAt == Unix(mintedAt + cfg.accessTTL) * SECOND
    ensures VerifyAccess(cfg, m, SignAccess(cfg, c, jti, mintedAt), AUDIENCE_API, parsedAt, queriedAt).Accepted() <==>
            parsedAt < Unix(mintedAt + cfg.accessTTL) * SECOND <= queriedAt
  {
    assert ACCESS_AUDIENCES[0] == AUDIENCE_API;
    RevokedTokenVerdict(cfg, m, [], c, jti, mintedAt, AUDIENCE_API, parsedAt, queriedAt);
  }

  /** Such a call exists: a token minted at 0 for 15 minutes, parsed a nanosecond before it expires. */
  lemma RevokedTokenAcceptedAtExpiry() returns (cfg: TokenConfig, m: RevokedSet, t: Token)
    ensures m == LogoutAccess(cfg, map[], t, 1, 1)
    ensures !VerifyAccess(cfg, m, t, AUDIENCE_API, 1, 1).Accepted()
    ensures VerifyAccess(cfg, m, t, AUDIENCE_API, 15 * MINUTE - 1, 15 * MINUTE).Accepted()
  {
    cfg := TokenConfig(0, None, 15 * MINUTE, 720 * HOUR);
    var c := AccessClaims(Text(1), Some(TypUser), Empty, "", 0, 0, Empty);
    t := SignAccess(cfg, c, Text(2), 0);
    m := LogoutAccess(cfg, map[], t, 1, 1);
    LogoutRevokes(cfg, map[], c, Text(2), 0, 1, 1);
    ExpiryBetweenReadings(cfg, m, c, Text(2), 0, 1, 1);
    ExpiryBetweenReadings(cfg, m, c, Text(2), 0, 15 * MINUTE - 1, 15 * MINUTE);
  }
}
