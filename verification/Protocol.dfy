/** The concurrent life of refresh tokens and password resets. Every in-flight call has a program
    counter and advances by one SQL statement, account read or clock test at a time; the steps of all
    calls interleave freely, and a call may fail before any of its statements.

    Beside the tables the state carries what the proofs speak of: for each refresh row the call that
    made it, the login row its chain of refreshes starts from, whether its raw value was handed out;
    for each reset the subject named at request time and the call whose MarkUsed flipped it. */
module Protocol {
  import opened Domain
  import opened AccessTokens
  import opened Store
  import opened Flows

  /** `root`: the login row at the head of the chain. `held`: made by a login, or by a refresh whose
      revocation of the presented row went through. `rotatedBy`: the refresh that revoked this row. */
  datatype RowInfo = RowInfo(creator: nat, root: nat, held: bool, disclosed: bool, rotatedBy: Option<nat>)

  datatype ResetInfo = ResetInfo(requestedFor: Subject, markedBy: Option<nat>)

  /** One successful UPDATE of a password hash by ConfirmPasswordReset. */
  datatype PasswordWrite = PasswordWrite(writer: nat, reset: nat, subj: Subject, hash: PasswordHash)

  datatype Call =
    | LoginReady(subj: Subject, claims: AccessClaims)
    | LoginMinted(row: nat, session: Session)
    | LoginDone(row: nat, session: Session)
    | RefreshStart(raw: Text)
    | RefreshRead(from: nat, existing: RefreshToken)
    | RefreshReplay(subj: Subject)
    | RefreshChecked(from: nat, existing: RefreshToken, subj: Subject)
    | RefreshAuthorized(from: nat, existing: RefreshToken, subj: Subject, claims: AccessClaims)
    | RefreshMinted(from: nat, existing: RefreshToken, row: nat, session: Session)
    | RefreshWon(from: nat, row: nat, session: Session)
    | RefreshDone(from: nat, row: nat, session: Session)
    | LogoutStart(raw: Text)
    | LogoutRead(existing: RefreshToken)
    | LogoutDone
    | ResetStart(token: Padded, password: string)
    | ResetRead(reset: nat, rec: PasswordReset, password: string)
    | ResetChecked(reset: nat, rec: PasswordReset, hash: PasswordHash)
    | ResetMarked(reset: nat, rec: PasswordReset, hash: PasswordHash)
    | ResetWritten(reset: nat, subj: Subject)
    | ResetDone(reset: nat, subj: Subject, rows: nat)
    | Failed(error: Error, stray: Option<nat>) // `stray`: a row it inserted

  datatype State = State(
    db: Tables,
    info: seq<RowInfo>,
    resetInfo: seq<ResetInfo>,
    writes: seq<PasswordWrite>,
    calls: map<nat, Call>,
    presented: set<Text>, // every raw refresh token ever presented by a caller
    clock: Time)

  datatype Action =
    | Elsewhere(db: Tables)   // the rest of the system changes accounts, 2FA records or revoked ids
    | ForceLogout(subj: Subject)
    | RequestReset(email: string, id: Text, raw: Text)
    | StartLogin(c: nat, subj: Subject, claims: AccessClaims) // past its password or 2FA checks
    | StartRefresh(c: nat, raw: Text)
    | StartLogout(c: nat, raw: Text)
    | StartReset(c: nat, token: Padded, password: string)
    | Advance(c: nat, ids: MintIds, salt: nat)
    | Fail(c: nat)

  datatype Event = Event(now: Time, action: Action)

  // ---- What a step does to the tables ----

  ghost function WithCall(s: State, c: nat, call: Call): State {
    s.(calls := s.calls[c := call])
  }

  ghost function WithRefresh(s: State, rows: seq<RefreshToken>): State {
    s.(db := s.db.(refresh := rows))
  }

  ghost function InsertRow(s: State, row: RefreshToken, info: RowInfo): State {
    WithRefresh(s, s.db.refresh + [row]).(info := s.info + [info])
  }

  /** The row's raw value leaves the service. */
  ghost function Disclose(s: State, row: nat): State {
    if row < |s.info| then s.(info := s.info[row := s.info[row].(disclosed := true)]) else s
  }

  /** The conditional revocation of a refresh that goes through: the presented row is out, the new one counts. */
  ghost function Rotate(s: State, c: nat, from: nat, existing: RefreshToken, row: nat, now: Time): State {
    if from < |s.info| && row < |s.info| then
      var info := s.info[from := s.info[from].(rotatedBy := Some(c))];
      WithRefresh(s, RevokeById(s.db.refresh, existing.id, None, now)).(info := info[row := info[row].(held := true)])
    else s
  }

  ghost function RevokeOwned(s: State, subj: Subject, now: Time): State {
    WithRefresh(s, RevokeBySubject(s.db.refresh, subj, now))
  }

  ghost function Mark(s: State, c: nat, r: nat, id: Text, now: Time): State {
    if r < |s.resetInfo| then
      s.(db := s.db.(resets := MarkUsed(s.db.resets, id, now)),
         resetInfo := s.resetInfo[r := s.resetInfo[r].(markedBy := Some(c))])
    else s
  }

  // ---- The steps of the calls ----

  ghost function LoginStep(cfg: TokenConfig, s: State, c: nat, call: Call, ids: MintIds, now: Time): State {
    match call
    case LoginReady(subj, claims) =>
      if HasRefreshId(s.db.refresh, ids.rowId) then WithCall(s, c, Failed(Internal, None))
      else WithCall(InsertRow(s, NewRow(cfg, subj, ids, now), RowInfo(c, |s.db.refresh|, true, false, None)),
                    c, LoginMinted(|s.db.refresh|, NewSession(cfg, claims, ids, now)))
    case LoginMinted(row, session) => WithCall(Disclose(s, row), c, LoginDone(row, session))
    case _ => s
  }

  ghost function RefreshStep(cfg: TokenConfig, s: State, c: nat, call: Call, ids: MintIds, now: Time): State {
    match call
    case RefreshStart(raw) =>
      var at := FindRefresh(s.db.refresh, Sha256(raw));
      WithCall(s, c, if at.None? then Failed(Unauthorized, None) else RefreshRead(at.value, s.db.refresh[at.value]))
    case RefreshRead(from, existing) =>
      var checked := RefreshCheck(existing, now);
      WithCall(s, c, if checked == Err(TokenRevoked) then RefreshReplay(existing.Owner())
                     else if checked.Err? then Failed(checked.error, None)
                     else RefreshChecked(from, existing, checked.value))
    case RefreshReplay(subj) => WithCall(RevokeOwned(s, subj, now), c, Failed(TokenRevoked, None))
    case RefreshChecked(from, existing, subj) =>
      var claims := AccountClaims(s.db, subj);
      WithCall(s, c,
               if claims.Err? then Failed(claims.error, None)
               else RefreshAuthorized(from, existing, subj, claims.value))
    case RefreshAuthorized(from, existing, subj, claims) =>
      var root := if from < |s.info| then s.info[from].root else 0;
      if HasRefreshId(s.db.refresh, ids.rowId) then WithCall(s, c, Failed(Internal, None))
      else WithCall(InsertRow(s, NewRow(cfg, subj, ids, now), RowInfo(c, root, false, false, None)),
                    c, RefreshMinted(from, existing, |s.db.refresh|, NewSession(cfg, claims, ids, now)))
    case RefreshMinted(from, existing, row, session) =>
      if RevokeAffects(s.db.refresh, existing.id)
      then WithCall(Rotate(s, c, from, existing, row, now), c, RefreshWon(from, row, session))
      else WithCall(s, c, Failed(NotFound, Some(row)))
    case RefreshWon(from, row, session) => WithCall(Disclose(s, row), c, RefreshDone(from, row, session))
    case _ => s
  }

  ghost function LogoutStep(s: State, c: nat, call: Call, now: Time): State {
    match call
    case LogoutStart(raw) =>
      var at := FindRefresh(s.db.refresh, Sha256(raw));
      WithCall(s, c, if raw == Empty || at.None? then LogoutDone else LogoutRead(s.db.refresh[at.value]))
    case LogoutRead(existing) =>
      WithCall(WithRefresh(s, RevokeById(s.db.refresh, existing.id, None, now)), c, LogoutDone)
    case _ => s
  }

  ghost function ResetStep(s: State, c: nat, call: Call, salt: nat, now: Time): State {
    match call
    case ResetStart(token, password) =>
      var at := FindReset(s.db.resets, Sha256(TrimText(token)));
      WithCall(s, c, if TrimText(token) == Empty || password == "" then Failed(InvalidInput, None)
                     else if at.None? then Failed(Unauthorized, None)
                     else ResetRead(at.value, s.db.resets[at.value], password))
    case ResetRead(r, rec, password) =>
      var hash := HashPassword(password, salt);
      WithCall(s, c, if !ResetUsable(rec, now) then Failed(Unauthorized, None)
                     else if hash.Err? then Failed(hash.error, None) else ResetChecked(r, rec, hash.value))
    case ResetChecked(r, rec, hash) =>
      if MarkAffects(s.db.resets, rec.id)
      then WithCall(Mark(s, c, r, rec.id, now), c, ResetMarked(r, rec, hash))
      else WithCall(s, c, Failed(NotFound, None))
    case ResetMarked(r, rec, hash) =>
      var written := SetPassword(s.db, rec.Owner(), hash);
      if written.Err? then WithCall(s, c, Failed(written.error, None))
      else WithCall(s.(db := written.value, writes := s.writes + [PasswordWrite(c, r, rec.Owner(), hash)]), c,
                    ResetWritten(r, rec.Owner()))
    case ResetWritten(r, subj) => WithCall(RevokeOwned(s, subj, now), c, ResetDone(r, subj, |s.db.refresh|))
    case _ => s
  }

  predicate IsLogin(call: Call) { call.LoginReady? || call.LoginMinted? || call.LoginDone? }

  predicate IsLogout(call: Call) { call.LogoutStart? || call.LogoutRead? || call.LogoutDone? }

  predicate IsReset(call: Call) {
    || call.ResetStart? || call.ResetRead? || call.ResetChecked?
    || call.ResetMarked? || call.ResetWritten? || call.ResetDone?
  }

  predicate Final(call: Call) {
    call.LoginDone? || call.RefreshDone? || call.LogoutDone? || call.ResetDone? || call.Failed?
  }

  ghost function Step(cfg: TokenConfig, s: State, c: nat, call: Call, ids: MintIds, salt: nat, now: Time): State {
    if IsLogin(call) then LoginStep(cfg, s, c, call, ids, now)
    else if IsLogout(call) then LogoutStep(s, c, call, now)
    else if IsReset(call) then ResetStep(s, c, call, salt, now)
    else RefreshStep(cfg, s, c, call, ids, now)
  }

  /** How a call ends when its next statement fails, or its answer is lost: a failed read of a token or an
      account is "unauthorized", a failed revocation of a replayed token is ignored, a logout never fails. */
  function Failure(call: Call): Call {
    match call
    case RefreshStart(_) => Failed(Unauthorized, None)
    case RefreshChecked(_, _, _) => Failed(Unauthorized, None)
    case RefreshReplay(_) => Failed(TokenRevoked, None)
    case ResetStart(_, _) => Failed(Unauthorized, None)
    case LogoutStart(_) => LogoutDone
    case LogoutRead(_) => LogoutDone
    case LoginMinted(row, _) => Failed(Internal, Some(row))
    case RefreshMinted(_, _, row, _) => Failed(Internal, Some(row))
    case RefreshWon(_, row, _) => Failed(Internal, Some(row))
    case _ => Failed(Internal, None)
  }

  // ---- Events ----

  /** A raw token is new: no row has it, and no caller has guessed it. */
  ghost predicate NewRaw(s: State, raw: Text) {
    raw !in s.presented && forall i :: 0 <= i < |s.db.refresh| ==> s.db.refresh[i].tokenHash != Sha256(raw)
  }

  /** Callers present raw tokens that were handed out, or values that belong to no row. */
  ghost predicate MayPresent(s: State, raw: Text) {
    forall i :: 0 <= i < |s.db.refresh| && s.db.refresh[i].tokenHash == Sha256(raw) ==>
      i < |s.info| && s.info[i].disclosed
  }

  ghost predicate Enabled(s: State, e: Event) {
    && s.clock <= e.now
    && match e.action
       case Elsewhere(db) => db.refresh == s.db.refresh && db.resets == s.db.resets
       case ForceLogout(subj) => Canonical(subj)
       case RequestReset(_, id, _) => forall r :: 0 <= r < |s.db.resets| ==> s.db.resets[r].id != id
       case StartLogin(c, subj, claims) => c !in s.calls && Canonical(subj) && ClaimsFor(subj, claims)
       case StartRefresh(c, raw) => c !in s.calls && MayPresent(s, raw)
       case StartLogout(c, raw) => c !in s.calls && MayPresent(s, raw)
       case StartReset(c, _, _) => c !in s.calls
       case Advance(c, ids, _) =>
         c in s.calls && (s.calls[c].LoginReady? || s.calls[c].RefreshAuthorized? ==> NewRaw(s, ids.raw))
       case Fail(c) => c in s.calls && !Final(s.calls[c])
  }

  ghost function Act(cfg: TokenConfig, s: State, a: Action, now: Time): State {
    match a
    case Elsewhere(db) => s.(db := db)
    case ForceLogout(subj) => RevokeOwned(s, subj, now)
    case RequestReset(email, id, raw) =>
      var subj := ResetSubject(s.db, NormalEmail(email));
      if NormalEmail(email) == "" || subj.None? then s
      else s.(db := s.db.(resets := s.db.resets + [NewReset(subj.value, id, raw, now)]),
              resetInfo := s.resetInfo + [ResetInfo(subj.value, None)])
    case StartLogin(c, subj, claims) => WithCall(s, c, LoginReady(subj, claims))
    case StartRefresh(c, raw) => WithCall(s.(presented := s.presented + {raw}), c, RefreshStart(raw))
    case StartLogout(c, raw) => WithCall(s.(presented := s.presented + {raw}), c, LogoutStart(raw))
    case StartReset(c, token, password) => WithCall(s, c, ResetStart(token, password))
    case Advance(c, ids, salt) => if c in s.calls then Step(cfg, s, c, s.calls[c], ids, salt, now) else s
    case Fail(c) => if c in s.calls then WithCall(s, c, Failure(s.calls[c])) else s
  }

  ghost function Next(cfg: TokenConfig, s: State, e: Event): State {
    Act(cfg, s.(clock := e.now), e.action, e.now)
  }

  ghost predicate ValidRun(cfg: TokenConfig, s: State, es: seq<Event>, n: nat)
    requires n <= |es|
  {
    n == 0 || (ValidRun(cfg, s, es, n - 1) && Enabled(StateAt(cfg, s, es, n - 1), es[n - 1]))
  }

  /** The state after the first `n` events. */
  ghost function StateAt(cfg: TokenConfig, s: State, es: seq<Event>, n: nat): State
    requires n <= |es|
  {
    if n == 0 then s else Next(cfg, StateAt(cfg, s, es, n - 1), es[n - 1])
  }

  ghost predicate Init(s: State) {
    && s.db.refresh == [] && s.db.resets == [] && s.info == [] && s.resetInfo == []
    && s.writes == [] && s.calls == map[] && s.presented == {}
  }
}
