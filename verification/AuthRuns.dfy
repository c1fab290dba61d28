/** Whole runs of the service in which every call is one step and the store never fails. */
module AuthRuns {
  import opened Domain
  import opened AccessTokens
  import opened Store
  import opened Flows
  import opened Plain

  /** A backup code to be issued, with the salt of its hash. */
  datatype Code = Code(text: string, salt: nat)

  datatype Op =
    | Register(reg: Registration, userId: Text, salt: nat, ids: MintIds, now: Time)
    | UserLogin(email: string, password: string, ids: MintIds, now: Time)
    | AdminLogin(email: string, password: string, ids: MintIds, now: Time)
    | Complete(partial: Token, code: string, totp: TotpAnswer, ids: MintIds, parsedAt: Time, confirmedAt: Time,
               mintedAt: Time)
    | RefreshWith(raw: Text, ids: MintIds, checkedAt: Time, mintedAt: Time, revokedAt: Time)
    | LogoutWith(raw: Text, access: Option<Token>, parsedAt: Time, queriedAt: Time, now: Time)
    | RevokeAccess(jti: Text, expiresAt: Time, reason: string)
    | ForceLogout(subj: Subject, now: Time)
    | Enroll(subj: Subject, secret: Text, issue: seq<Code>)
    | Verify(subj: Subject, code: string, totp: TotpAnswer, now: Time)
    | Disable(subj: Subject)
    | RequestReset(email: string, id: Text, raw: Text, now: Time)
    | ConfirmReset(token: Padded, password: string, salt: nat, checkedAt: Time, markedAt: Time, revokedAt: Time)
    | Accounts(users: seq<User>, admins: seq<Admin>) // the rest of the system changes the account tables

  datatype Outcome =
    | OtherOutcome(ok: bool)
    | LoginOutcome(login: Result<LoginResult>)
    | RefreshOutcome(refresh: Result<Session>)

  function Texts(issue: seq<Code>): seq<string> {
    seq(|issue|, i requires 0 <= i < |issue| => issue[i].text)
  }

  function Salts(issue: seq<Code>): seq<nat> {
    seq(|issue|, i requires 0 <= i < |issue| => issue[i].salt)
  }

  function Hashes(issue: seq<Code>): seq<PasswordHash> {
    HashCodes(Texts(issue), Salts(issue))
  }

  // ---- One call ----

  function Perform(cfg: TokenConfig, db: Tables, op: Op): (Tables, Outcome) {
    match op
    case Register(reg, userId, salt, ids, now) =>
      var (d, r) := RegisterUser(cfg, db, reg, userId, salt, ids, now); (d, LoginOutcome(r))
    case UserLogin(email, password, ids, now) =>
      var (d, r) := LoginUser(cfg, db, email, password, ids, now); (d, LoginOutcome(r))
    case AdminLogin(email, password, ids, now) =>
      var (d, r) := LoginAdmin(cfg, db, email, password, ids, now); (d, LoginOutcome(r))
    case Complete(partial, code, totp, ids, parsedAt, confirmedAt, mintedAt) =>
      var (d, r) := CompleteLogin2FA(cfg, db, partial, code, totp, ids, parsedAt, confirmedAt,
                                     mintedAt); (d, LoginOutcome(r))
    case RefreshWith(raw, ids, checkedAt, mintedAt, revokedAt) =>
      var (d, r) := Refresh(cfg, db, raw, ids, checkedAt, mintedAt, revokedAt); (d, RefreshOutcome(r))
    case LogoutWith(raw, access, parsedAt, queriedAt, now) =>
      (LogoutRequest(cfg, db, raw, access, parsedAt, queriedAt, now), OtherOutcome(true))
    case RevokeAccess(jti, expiresAt, reason) =>
      var (d, r) := RevokeJTI(db, jti, expiresAt, reason); (d, OtherOutcome(r.Ok?))
    case ForceLogout(subj, now) => (db.(refresh := RevokeBySubject(db.refresh, subj, now)), OtherOutcome(true))
    case Enroll(subj, secret, issue) => var (d,
                                             r) := Enroll2FA(db, subj, secret, Texts(issue),
                                                             Salts(issue)); (d, OtherOutcome(r.Ok?))
    case Verify(subj, code, totp, now) => var (d, r) := Verify2FA(db, subj, code, totp, now); (d, OtherOutcome(r.Ok?))
    case Disable(subj) => (DeleteTwoFA(db, subj), OtherOutcome(true))
    case RequestReset(email, id, raw, now) =>
      var (d, r) := RequestPasswordReset(db, email, id, raw, now); (d, OtherOutcome(r.Ok?))
    case ConfirmReset(token, password, salt, checkedAt, markedAt, revokedAt) =>
      var (d, r) := ConfirmPasswordReset(db, token, password, salt, checkedAt, markedAt,
                                         revokedAt); (d, OtherOutcome(r.Ok?))
    case Accounts(users, admins) => (db.(users := users, admins := admins), OtherOutcome(true))
  }

  // ---- Runs ----

  /** Calls, and the tables before each of them and after the last. */
  datatype Run = Run(ops: seq<Op>, db: nat -> Tables)

  ghost predicate StepOk(cfg: TokenConfig, r: Run, k: nat) {
    k < |r.ops| ==> r.db(k + 1) == Perform(cfg, r.db(k), r.ops[k]).0
  }

  /** Every call starts from the tables that the one before it left. */
  ghost predicate IsRun(cfg: TokenConfig, r: Run) {
    forall k :: StepOk(cfg, r, k)
  }

  function OutcomeAt(cfg: TokenConfig, r: Run, k: nat): Outcome
    requires k < |r.ops|
  {
    Perform(cfg, r.db(k), r.ops[k]).1
  }

  function SessionOf(o: Outcome): Option<Session> {
    match o
    case LoginOutcome(Ok(LoggedIn(session))) => Some(session)
    case RefreshOutcome(Ok(session)) => Some(session)
    case _ => None
  }

  function PartialOf(o: Outcome): Option<Token> {
    match o
    case LoginOutcome(Ok(NeedsTwoFA(partial))) => Some(partial)
    case _ => None
  }

  /** The call handed this token out. */
  predicate Issued(o: Outcome, t: Token) {
    PartialOf(o) == Some(t) || (SessionOf(o).Some? && SessionOf(o).value.access == t)
  }

  predicate Signed(cfg: TokenConfig, t: Token) {
    t.Jwt? && SignatureAccepted(cfg, t)
  }

  /** Signatures are not forged: a presented token that bears one was handed out earlier in the run. */
  ghost predicate Unforged(cfg: TokenConfig, r: Run) {
    forall k :: 0 <= k < |r.ops| && r.ops[k].Complete? && Signed(cfg, r.ops[k].partial) ==>
      exists j :: 0 <= j < k && Issued(OutcomeAt(cfg, r, j), r.ops[k].partial)
  }

  // ---- Whose session it is, and where it comes from ----

  /** The subject that the access token of a session names. */
  function SessionSubject(s: Session): Subject {
    if s.access.NotJwt? then ZERO_SUBJECT
    else if s.access.claims.typ == Some(TypAdmin) then AdminSubject(TextOr(s.access.claims.sub))
    else UserSubject(TextOr(s.access.claims.sub))
  }

  /** `subj` is an account with this email and this password, and `factor` says whether that account
      asks for a second factor. */
  ghost predicate PasswordMatch(db: Tables, email: string, password: string, subj: Subject, factor: bool) {
    var e := NormalEmail(email);
    || (exists i :: 0 <= i < |db.users| && UserMatch(db.users[i], e, password, subj) && factor == Enrolled(db, subj))
    || (exists i :: 0 <= i < |db.admins| && AdminMatch(db.admins[i], e, password, subj)
                    && factor == db.admins[i].requiresTwoFA)
  }

  predicate UserMatch(u: User, email: string, password: string, subj: Subject) {
    subj == UserSubject(u.id) && u.email == email && u.deletedAt.None? && u.passwordHash.secret == password
  }

  predicate AdminMatch(a: Admin, email: string, password: string, subj: Subject) {
    subj == AdminSubject(a.id) && a.email == email && a.passwordHash.secret == password
  }

  predicate IsLoginOp(op: Op) {
    op.UserLogin? || op.AdminLogin?
  }

  /** Step `j` handed out this partial token after a password match of `subj` that asked for a second factor. */
  ghost predicate PartialRoot(cfg: TokenConfig, db: Tables, op: Op, partial: Token, subj: Subject) {
    && IsLoginOp(op)
    && PasswordMatch(db, op.email, op.password, subj, true)
    && partial == MintPartial2FA(cfg, subj, op.now)
  }

  /** The session of step `k` is for `subj` and traces back to a proper beginning: a registration; a
      password match with no second factor asked for; a partial token handed out after a password match,
      not yet expired, with a second factor verified; or, through a refresh, such a session. */
  ghost predicate Rooted(cfg: TokenConfig, r: Run, k: nat, subj: Subject)
    requires k < |r.ops|
    decreases k
  {
    var o := OutcomeAt(cfg, r, k);
    var here := r.db(k);
    && SessionOf(o).Some?
    && SessionSubject(SessionOf(o).value) == subj
    && match r.ops[k]
       case Register(_, userId, _, _, _) => subj == UserSubject(userId) && FindUser(here.users, userId).None?
       case UserLogin(email, password, _, _) => PasswordMatch(here, email, password, subj, false)
       case AdminLogin(email, password, _, _) => PasswordMatch(here, email, password, subj, false)
       case Complete(partial, code, totp, _, parsedAt, _, _) =>
         && RightCodeOf(here, subj, code, totp)
         && exists j :: 0 <= j < k && PartialRoot(cfg, r.db(j), r.ops[j], partial, subj)
                        && parsedAt < Unix(r.ops[j].now + 5 * MINUTE) * SECOND
       case RefreshWith(raw, _, _, _, _) =>
         exists j :: 0 <= j < k && Rooted(cfg, r, j, subj) && SessionOf(OutcomeAt(cfg, r, j)).value.refreshRaw == raw
       case _ => false
  }
}
