/** What one uninterrupted call of each service operation does to the tables and returns.
    Random values are parameters, and so is every reading of the clock. */
module Flows {
  import opened Domain
  import opened Strings
  import opened AccessTokens
  import opened Store

  // ---- Minting a session ----

  /** The random values of one mint: the row's id, the raw refresh token, the access token's id. */
  datatype MintIds = MintIds(rowId: Text, raw: Text, jti: Text)

  datatype Session = Session(access: Token, accessExpiresAt: Time, refreshRaw: Text, refreshExpiresAt: Time, jti: Text)

  const ROLE_USER := Text(0) // the role "user"

  function UserClaims(u: User): AccessClaims {
    AccessClaims(u.id, Some(TypUser), ROLE_USER, u.email, 0, 0, Empty)
  }

  function AdminClaims(a: Admin): AccessClaims {
    AccessClaims(a.id, Some(TypAdmin), a.role, a.email, 0, 0, Empty)
  }

  predicate Canonical(subj: Subject) {
    subj == UserSubject(subj.userId) || subj == AdminSubject(subj.adminId)
  }

  /** The claims name the subject by its id and its kind. */
  predicate ClaimsFor(subj: Subject, claims: AccessClaims) {
    claims.sub == subj.ID() && claims.typ == Some(if subj.kind == KindAdmin then TypAdmin else TypUser)
  }

  function NewRow(cfg: TokenConfig, subj: Subject, ids: MintIds, now: Time): RefreshToken {
    RefreshToken(ids.rowId, Sha256(ids.raw),
                 if subj.kind == KindAdmin then None else Some(subj.userId),
                 if subj.kind == KindAdmin then Some(subj.adminId) else None,
                 now, now + cfg.refreshTTL, None, None)
  }

  function NewSession(cfg: TokenConfig, c: AccessClaims, ids: MintIds, now: Time): Session {
    Session(SignAccess(cfg, c, ids.jti, now), now + cfg.accessTTL, ids.raw, now + cfg.refreshTTL, ids.jti)
  }

  /** mint: the session exists only once its row does. */
  function Mint(cfg: TokenConfig, db: Tables, c: AccessClaims, subj: Subject, ids: MintIds,
                now: Time): (Tables, Result<Session>) {
    if HasRefreshId(db.refresh, ids.rowId) then (db, Err(Internal))
    else (db.(refresh := db.refresh + [NewRow(cfg, subj, ids, now)]), Ok(NewSession(cfg, c, ids, now)))
  }

  // ---- Refresh and logout ----

  /** The activity test and the owner of the presented row. */
  function RefreshCheck(existing: RefreshToken, now: Time): Result<Subject> {
    if !existing.IsActive(now) then Err(TokenRevoked)
    else if existing.Owner() == ZERO_SUBJECT then Err(Unauthorized)
    else Ok(existing.Owner())
  }

  /** The claims of the account as it stands now. */
  function AccountClaims(db: Tables, subj: Subject): Result<AccessClaims> {
    match subj.kind
    case KindAdmin =>
      var a := FindAdmin(db.admins, subj.adminId);
      if a.None? then Err(Unauthorized) else Ok(AdminClaims(db.admins[a.value]))
    case KindUser =>
      var u := FindUser(db.users, subj.userId);
      if u.None? || db.users[u.value].deletedAt.Some? then Err(Unauthorized) else Ok(UserClaims(db.users[u.value]))
    case KindNone => Err(Unauthorized)
  }

  /** Refresh, with its readings of the clock: the activity test, the mint, the revocation. */
  function Refresh(cfg: TokenConfig, db: Tables, raw: Text, ids: MintIds, checkedAt: Time, mintedAt: Time,
                   revokedAt: Time)
    : (Tables, Result<Session>)
  {
    var at := FindRefresh(db.refresh, Sha256(raw));
    if at.None? then (db, Err(Unauthorized)) else
      var existing := db.refresh[at.value];
      var checked := RefreshCheck(existing, checkedAt);
      if checked == Err(TokenRevoked) then
        (db.(refresh := RevokeBySubject(db.refresh, existing.Owner(), revokedAt)), Err(TokenRevoked))
      else if checked.Err? then (db, Err(checked.error))
      else
        var claims := AccountClaims(db, checked.value);
        if claims.Err? then (db, Err(claims.error)) else
          var (minted, session) := Mint(cfg, db, claims.value, checked.value, ids, mintedAt);
          if session.Err? then (minted, session) else
            var after := minted.(refresh := RevokeById(minted.refresh, existing.id, None, revokedAt));
            (after, if RevokeAffects(minted.refresh, existing.id) then session else Err(NotFound))
  }

  function RevokeRaw(refresh: seq<RefreshToken>, raw: Text, now: Time): seq<RefreshToken> {
    var at := FindRefresh(refresh, Sha256(raw));
    if at.None? then refresh else RevokeById(refresh, refresh[at.value].id, None, now)
  }

  function RevokeJTI(db: Tables, jti: Text, expiresAt: Time, reason: string): (Tables, Result<()>) {
    if jti == Empty then (db, Err(InvalidInput))
    else (db.(revoked := AddRevoked(db.revoked, jti, RevokedJTI(expiresAt, reason))), Ok(()))
  }

  /** Logout never fails, whatever it finds. */
  function Logout(db: Tables, raw: Text, jti: Text, accessExp: Time, now: Time): Tables {
    var db1 := if raw == Empty then db else db.(refresh := RevokeRaw(db.refresh, raw, now));
    if jti == Empty then db1 else db1.(revoked := AddRevoked(db1.revoked, jti, RevokedJTI(accessExp, "logout")))
  }

  /** The logout handler: a logout with the id and the expiry of the access token, when it verifies or
      is already revoked. */
  function LogoutRequest(cfg: TokenConfig, db: Tables, raw: Text, access: Option<Token>, parsedAt: Time,
                         queriedAt: Time, now: Time): Tables {
    db.(refresh := if raw == Empty then db.refresh else RevokeRaw(db.refresh, raw, now),
        revoked := if access.None? then db.revoked
                   else LogoutAccess(cfg, db.revoked, access.value, parsedAt, queriedAt))
  }

  // ---- Login ----

  datatype LoginResult = LoggedIn(session: Session) | NeedsTwoFA(partial: Token)

  /** A session once minted, as the result of a login. */
  function Login(minted: (Tables, Result<Session>)): (Tables, Result<LoginResult>) {
    (minted.0, if minted.1.Err? then Err(minted.1.error) else Ok(LoggedIn(minted.1.value)))
  }

  function MintForUser(cfg: TokenConfig, db: Tables, u: User, ids: MintIds, now: Time): (Tables, Result<LoginResult>) {
    Login(Mint(cfg, db, UserClaims(u), UserSubject(u.id), ids, now))
  }

  function MintForAdmin(cfg: TokenConfig, db: Tables, a: Admin, ids: MintIds,
                        now: Time): (Tables, Result<LoginResult>) {
    Login(Mint(cfg, db, AdminClaims(a), AdminSubject(a.id), ids, now))
  }

  function Enrolled(db: Tables, subj: Subject): bool {
    var rec := GetTwoFA(db, subj);
    rec.Some? && rec.value.IsEnrolled()
  }

  /** After a user's password matched. */
  function PassUser(cfg: TokenConfig, db: Tables, u: User, ids: MintIds, now: Time): (Tables, Result<LoginResult>) {
    if Enrolled(db, UserSubject(u.id)) then (db, Ok(NeedsTwoFA(MintPartial2FA(cfg, UserSubject(u.id), now))))
    else MintForUser(cfg, db, u, ids, now)
  }

  /** After an admin's password matched. */
  function PassAdmin(cfg: TokenConfig, db: Tables, a: Admin, ids: MintIds, now: Time): (Tables, Result<LoginResult>) {
    if a.requiresTwoFA then (db, Ok(NeedsTwoFA(MintPartial2FA(cfg, AdminSubject(a.id), now))))
    else MintForAdmin(cfg, db, a, ids, now)
  }

  function NormalEmail(email: string): string {
    TrimSpace(ToLower(email))
  }

  /** The user whose email and password these are, if any. */
  function PasswordUser(db: Tables, email: string, password: string): Option<User> {
    var at := FindUserByEmail(db.users, email);
    if at.Some? && BcryptMatches(db.users[at.value].passwordHash, password) then Some(db.users[at.value]) else None
  }

  function PasswordAdmin(db: Tables, email: string, password: string): Option<Admin> {
    var at := FindAdminByEmail(db.admins, email);
    if at.Some? && BcryptMatches(db.admins[at.value].passwordHash, password) then Some(db.admins[at.value]) else None
  }

  /** The unified login: the user table first, then the admin table with the same password. */
  function LoginUser(cfg: TokenConfig, db: Tables, email: string, password: string, ids: MintIds,
                     now: Time): (Tables, Result<LoginResult>) {
    var e := NormalEmail(email);
    if e == "" || password == "" then (db, Err(InvalidInput)) else
      var u := PasswordUser(db, e, password);
      if u.Some? then PassUser(cfg, db, u.value, ids, now) else
        var a := PasswordAdmin(db, e, password);
        if a.Some? then PassAdmin(cfg, db, a.value, ids, now) else (db, Err(Unauthorized))
  }

  function LoginAdmin(cfg: TokenConfig, db: Tables, email: string, password: string, ids: MintIds,
                      now: Time): (Tables, Result<LoginResult>) {
    var e := NormalEmail(email);
    if e == "" || password == "" then (db, Err(InvalidInput)) else
      var a := PasswordAdmin(db, e, password);
      if a.Some? then PassAdmin(cfg, db, a.value, ids, now) else (db, Err(Unauthorized))
  }

  /** bcrypt refuses passwords longer than 72 bytes. */
  function HashPassword(password: string, salt: nat): Result<PasswordHash> {
    if |password| > 72 then Err(Internal) else Ok(Bcrypt(salt, password))
  }

  datatype Registration = Registration(email: string, password: string, name: string, phone: string, telegram: string)

  function NewUser(r: Registration, id: Text, hash: PasswordHash): User {
    var e, name := NormalEmail(r.email), TrimSpace(r.name);
    User(id, e, if name == "" then e else name, hash, TrimSpace(r.phone), TrimSpace(r.telegram), None)
  }

  function RegisterUser(cfg: TokenConfig, db: Tables, r: Registration, userId: Text, salt: nat, ids: MintIds,
                        now: Time): (Tables, Result<LoginResult>) {
    var e := NormalEmail(r.email);
    if e == "" || r.password == "" then (db, Err(InvalidInput))
    else if TrimSpace(r.phone) == "" && TrimSpace(r.telegram) == "" then (db, Err(InvalidInput))
    else if FindUserByEmail(db.users, e).Some? then (db, Err(Conflict))
    else
      var hash := HashPassword(r.password, salt);
      if hash.Err? then (db, Err(hash.error))
      else if FindUser(db.users, userId).Some? then (db, Err(Internal))
      else
        var u := NewUser(r, userId, hash.value);
        MintForUser(cfg, db.(users := db.users + [u]), u, ids, now)
  }

  // ---- The second factor ----

  /** What the TOTP library says about a six-digit code against the stored secret. */
  datatype TotpAnswer = DecryptFails | WrongCode | RightCode

  function HashCodes(codes: seq<string>, salts: seq<nat>): seq<PasswordHash>
    requires |salts| == |codes|
  {
    seq(|codes|, i requires 0 <= i < |codes| => Bcrypt(salts[i], codes[i]))
  }

  /** Whether GetByID finds the account; a soft-deleted user is still found. */
  predicate AccountExists(db: Tables, subj: Subject) {
    if subj.kind == KindAdmin then FindAdmin(db.admins, subj.adminId).Some? else FindUser(db.users, subj.userId).Some?
  }

  /** Enrolment replaces the record: new secret, new codes, not enrolled yet. */
  function Enroll2FA(db: Tables, subj: Subject, secret: Text, codes: seq<string>,
                     salts: seq<nat>): (Tables, Result<seq<string>>)
    requires |salts| == |codes|
  {
    if !AccountExists(db, subj) then (db, Err(NotFound))
    else (PutTwoFA(db, subj, TwoFA(secret, HashCodes(codes, salts), None)), Ok(codes))
  }

  function FindCode(hashes: seq<PasswordHash>, code: string): Option<nat> {
    FirstFrom(hashes, (h: PasswordHash) => BcryptMatches(h, code), 0)
  }

  function NormalCode(code: string): string {
    TrimSpace(ToUpper(code))
  }

  /** The first success after enrolment confirms it. */
  function Confirm(db: Tables, subj: Subject, wasEnrolled: bool, now: Time): Tables {
    if wasEnrolled then db else MarkEnrolled(db, subj, now)
  }

  function Verify2FA(db: Tables, subj: Subject, code: string, totp: TotpAnswer, now: Time): (Tables, Result<()>) {
    var c, rec := NormalCode(code), GetTwoFA(db, subj);
    if c == "" then (db, Err(InvalidInput))
    else if rec.None? then (db, Err(TwoFANotEnrolled))
    else if IsTOTPShape(c) then
      if totp == DecryptFails then (db, Err(Internal))
      else if totp == WrongCode then (db, Err(InvalidTwoFACode))
      else (Confirm(db, subj, rec.value.IsEnrolled(), now), Ok(()))
    else
      var found := FindCode(rec.value.backupCodesHash, c);
      if found.None? then (db, Err(InvalidTwoFACode))
      else
        var consumed := ConsumeBackupCode(db, subj, rec.value.backupCodesHash[found.value]);
        (Confirm(consumed, subj, rec.value.IsEnrolled(), now), Ok(()))
  }

  /** The account behind a verified partial token; a soft-deleted user still counts as found here. */
  function FinishLogin(cfg: TokenConfig, db: Tables, subj: Subject, ids: MintIds,
                       now: Time): (Tables, Result<LoginResult>) {
    if subj.kind == KindUser then
      var u := FindUser(db.users, subj.userId);
      if u.None? then (db, Err(Unauthorized)) else MintForUser(cfg, db, db.users[u.value], ids, now)
    else
      var a := FindAdmin(db.admins, subj.adminId);
      if a.None? then (db, Err(Unauthorized)) else MintForAdmin(cfg, db, db.admins[a.value], ids, now)
  }

  /** With its readings of the clock: the parse, the confirmation of the enrolment, the mint. */
  function CompleteLogin2FA(cfg: TokenConfig, db: Tables, partial: Token, code: string, totp: TotpAnswer, ids: MintIds,
                            parsedAt: Time, confirmedAt: Time, mintedAt: Time): (Tables, Result<LoginResult>)
  {
    var subj := ParsePartialToken(cfg, partial, parsedAt);
    if subj.Err? then (db, Err(subj.error)) else
      var (verified, r) := Verify2FA(db, subj.value, code, totp, confirmedAt);
      if r.Err? then (verified, Err(r.error)) else FinishLogin(cfg, verified, subj.value, ids, mintedAt)
  }

  // ---- Password reset ----

  const RESET_TTL: Time := HOUR

  /** The account a reset request names: a user before an admin. */
  function ResetSubject(db: Tables, email: string): Option<Subject> {
    var u := FindUserByEmail(db.users, email);
    if u.Some? then Some(UserSubject(db.users[u.value].id)) else
      var a := FindAdminByEmail(db.admins, email);
      if a.Some? then Some(AdminSubject(db.admins[a.value].id)) else None
  }

  function NewReset(subj: Subject, id: Text, raw: Text, now: Time): PasswordReset {
    PasswordReset(id, Sha256(raw), if subj.kind == KindAdmin then None else Some(subj.userId),
                  if subj.kind == KindAdmin then Some(subj.adminId) else None, now, now + RESET_TTL, None)
  }

  /** What a request hands to its caller: the raw token, and the account to mail it to. */
  datatype ResetIssued = ForUser(raw: Text, user: User) | ForAdmin(raw: Text, admin: Admin)

  function IssuedFor(db: Tables, email: string, raw: Text): ResetIssued
    requires ResetSubject(db, email).Some?
  {
    var u := FindUserByEmail(db.users, email);
    if u.Some? then ForUser(raw, db.users[u.value])
    else ForAdmin(raw, db.admins[FindAdminByEmail(db.admins, email).value])
  }

  /** An unknown email succeeds without a token. */
  function RequestPasswordReset(db: Tables, email: string, id: Text, raw: Text, now: Time)
    : (Tables, Result<Option<ResetIssued>>)
  {
    var e := NormalEmail(email);
    if e == "" then (db, Err(InvalidInput)) else
      var subj := ResetSubject(db, e);
      if subj.None? then (db, Ok(None))
      else (db.(resets := db.resets + [NewReset(subj.value, id, raw, now)]), Ok(Some(IssuedFor(db, e, raw))))
  }

  /** A reset is usable until, and at, its expiry. */
  function ResetUsable(rec: PasswordReset, now: Time): bool {
    rec.usedAt.None? && now <= rec.expiresAt
  }

  function SetPassword(db: Tables, subj: Subject, hash: PasswordHash): Result<Tables> {
    match subj.kind
    case KindUser =>
      if !UserUpdateAffects(db.users, subj.userId) then Err(NotFound)
      else Ok(db.(users := SetUserPassword(db.users, subj.userId, hash)))
    case KindAdmin =>
      if !AdminUpdateAffects(db.admins, subj.adminId) then Err(NotFound)
      else Ok(db.(admins := SetAdminPassword(db.admins, subj.adminId, hash)))
    case KindNone => Err(Unauthorized)
  }

  /** ConfirmPasswordReset, with its readings of the clock: the expiry test, MarkUsed, the revocation. */
  function ConfirmPasswordReset(db: Tables, token: Padded, password: string, salt: nat,
                                checkedAt: Time, markedAt: Time, revokedAt: Time): (Tables, Result<()>)
  {
    var raw := TrimText(token);
    if raw == Empty || password == "" then (db, Err(InvalidInput)) else
      var at := FindReset(db.resets, Sha256(raw));
      if at.None? || !ResetUsable(db.resets[at.value], checkedAt) then (db, Err(Unauthorized)) else
        var rec, hash := db.resets[at.value], HashPassword(password, salt);
        if hash.Err? then (db, Err(hash.error))
        else if !MarkAffects(db.resets, rec.id) then (db, Err(NotFound))
        else
          var marked := db.(resets := MarkUsed(db.resets, rec.id, markedAt));
          var written := SetPassword(marked, rec.Owner(), hash.value);
          if written.Err? then (marked, Err(written.error))
          else (written.value.(refresh := RevokeBySubject(written.value.refresh, rec.Owner(), revokedAt)), Ok(()))
  }
}
