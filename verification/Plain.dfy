/** What can be read off the rows, in plain terms: the first row of a token, of an account, of an email;
    the shape of a token; which rows a statement reached. The promises of the service are stated in these
    terms, with the constants written out. */
module Plain {
  import opened Domain
  import opened Strings
  import opened AccessTokens
  import opened Store
  import opened Flows

  // ---- The first row of a kind ----

  ghost predicate TokenRow(db: Tables, raw: Text, i: nat) {
    && i < |db.refresh| && db.refresh[i].tokenHash == Sha256(raw)
    && forall j :: 0 <= j < i ==> db.refresh[j].tokenHash != Sha256(raw)
  }

  ghost predicate NoTokenRow(db: Tables, raw: Text) {
    forall j :: 0 <= j < |db.refresh| ==> db.refresh[j].tokenHash != Sha256(raw)
  }

  ghost predicate UserRow(db: Tables, id: Text, i: nat) {
    i < |db.users| && db.users[i].id == id && forall j :: 0 <= j < i ==> db.users[j].id != id
  }

  ghost predicate AdminRow(db: Tables, id: Text, i: nat) {
    i < |db.admins| && db.admins[i].id == id && forall j :: 0 <= j < i ==> db.admins[j].id != id
  }

  /** Soft-deleted users have no email any more. */
  predicate HasEmail(u: User, email: string) {
    u.email == email && u.deletedAt.None?
  }

  ghost predicate EmailUser(db: Tables, email: string, i: nat) {
    i < |db.users| && HasEmail(db.users[i], email) && forall j :: 0 <= j < i ==> !HasEmail(db.users[j], email)
  }

  ghost predicate NoEmailUser(db: Tables, email: string) {
    forall j :: 0 <= j < |db.users| ==> !HasEmail(db.users[j], email)
  }

  ghost predicate EmailAdmin(db: Tables, email: string, i: nat) {
    && i < |db.admins| && db.admins[i].email == email
    && forall j :: 0 <= j < i ==> db.admins[j].email != email
  }

  ghost predicate NoEmailAdmin(db: Tables, email: string) {
    forall j :: 0 <= j < |db.admins| ==> db.admins[j].email != email
  }

  ghost predicate ResetRow(db: Tables, raw: Text, i: nat) {
    && i < |db.resets| && db.resets[i].tokenHash == Sha256(raw)
    && forall j :: 0 <= j < i ==> db.resets[j].tokenHash != Sha256(raw)
  }

  ghost predicate NoResetRow(db: Tables, raw: Text) {
    forall j :: 0 <= j < |db.resets| ==> db.resets[j].tokenHash != Sha256(raw)
  }

  ghost predicate FreeRowId(db: Tables, id: Text) {
    forall j :: 0 <= j < |db.refresh| ==> db.refresh[j].id != id
  }

  // ---- What the queries find ----

  lemma TokenRowIsFound(db: Tables, raw: Text, i: nat)
    requires TokenRow(db, raw, i)
    ensures FindRefresh(db.refresh, Sha256(raw)) == Some(i)
  {
    FirstIs(db.refresh, (t: RefreshToken) => t.tokenHash == Sha256(raw), 0, i);
  }

  lemma UserRowIsFound(db: Tables, id: Text, i: nat)
    requires UserRow(db, id, i)
    ensures FindUser(db.users, id) == Some(i)
  {
    FirstIs(db.users, (u: User) => u.id == id, 0, i);
  }

  lemma AdminRowIsFound(db: Tables, id: Text, i: nat)
    requires AdminRow(db, id, i)
    ensures FindAdmin(db.admins, id) == Some(i)
  {
    FirstIs(db.admins, (a: Admin) => a.id == id, 0, i);
  }

  lemma EmailUserIsFound(db: Tables, email: string, i: nat)
    requires EmailUser(db, email, i)
    ensures FindUserByEmail(db.users, email) == Some(i)
  {
    FirstIs(db.users, (u: User) => u.email == email && u.deletedAt.None?, 0, i);
  }

  lemma NoEmailUserIsFound(db: Tables, email: string)
    requires NoEmailUser(db, email)
    ensures FindUserByEmail(db.users, email) == None
  {
    NoneIs(db.users, (u: User) => u.email == email && u.deletedAt.None?, 0);
  }

  lemma EmailAdminIsFound(db: Tables, email: string, i: nat)
    requires EmailAdmin(db, email, i)
    ensures FindAdminByEmail(db.admins, email) == Some(i)
  {
    FirstIs(db.admins, (a: Admin) => a.email == email, 0, i);
  }

  lemma NoEmailAdminIsFound(db: Tables, email: string)
    requires NoEmailAdmin(db, email)
    ensures FindAdminByEmail(db.admins, email) == None
  {
    NoneIs(db.admins, (a: Admin) => a.email == email, 0);
  }

  lemma ResetRowIsFound(db: Tables, raw: Text, i: nat)
    requires ResetRow(db, raw, i)
    ensures FindReset(db.resets, Sha256(raw)) == Some(i)
  {
    FirstIs(db.resets, (p: PasswordReset) => p.tokenHash == Sha256(raw), 0, i);
  }

  // ---- Tokens, written out ----

  /** An access token of the service, minted at `at`. */
  predicate AccessTokenIs(cfg: TokenConfig, t: Token, sub: Text, typ: Typ, role: Text, email: string, jti: Text,
                          at: Time) {
    t == Jwt(RS256, RsaKey(cfg.rsa),
             Claims(Some(sub), Some(typ), Some((at + cfg.accessTTL) / 1_000_000_000), None, Some(at / 1_000_000_000),
                    Some(jti), "viralefy-auth",
                    ["viralefy-api", "viralefy-core", "viralefy-payments", "viralefy-sender"],
                    if role == Empty then None else Some(role), if email == "" then None else Some(email)))
  }

  /** A partial token: five minutes, for the service itself. */
  predicate PartialTokenIs(cfg: TokenConfig, t: Token, sub: Text, typ: Typ, at: Time) {
    t == Jwt(RS256, RsaKey(cfg.rsa),
             Claims(Some(sub), Some(typ), Some((at + 300_000_000_000) / 1_000_000_000), None, Some(at / 1_000_000_000),
                    None, "viralefy-auth", ["viralefy-auth"], None, None))
  }

  /** A session handed out at `at` for this account. */
  predicate SessionIs(cfg: TokenConfig, s: Session, sub: Text, typ: Typ, role: Text, email: string, ids: MintIds,
                      at: Time) {
    && AccessTokenIs(cfg, s.access, sub, typ, role, email, ids.jti, at)
    && s.accessExpiresAt == at + cfg.accessTTL && s.jti == ids.jti
    && s.refreshRaw == ids.raw && s.refreshExpiresAt == at + cfg.refreshTTL
  }

  /** The row of such a session: of a user, or of an admin. */
  function RowOfSession(cfg: TokenConfig, userId: Option<Text>, adminId: Option<Text>, ids: MintIds,
                        at: Time): RefreshToken {
    RefreshToken(ids.rowId, Sha256(ids.raw), userId, adminId, at, at + cfg.refreshTTL, None, None)
  }

  /** Only the row of a new session was added. */
  ghost predicate OnlyAdds(db: Tables, after: Tables, row: RefreshToken) {
    after == db.(refresh := db.refresh + [row])
  }

  // ---- Revoked rows ----

  /** Revoked, or at or past its expiry. */
  predicate Stale(row: RefreshToken, now: Time) {
    row.revokedAt.Some? || row.expiresAt <= now
  }

  /** The row belongs to the same user as `who`, or to the same admin when `who` names no user. */
  predicate SameColumn(who: RefreshToken, t: RefreshToken) {
    if who.userId.Some? then t.userId == who.userId
    else if who.adminId.Some? then t.adminId == who.adminId
    else t.userId == Some(Empty)
  }

  /** Exactly the unrevoked rows of the owner of `who` are revoked, and no row changes otherwise. */
  ghost predicate OwnerRevoked(rows: seq<RefreshToken>, after: seq<RefreshToken>, who: RefreshToken, now: Time) {
    && |after| == |rows|
    && forall i :: 0 <= i < |rows| ==>
         if SameColumn(who, rows[i]) && rows[i].revokedAt.None? then after[i] == rows[i].(revokedAt := Some(now))
         else after[i] == rows[i]
  }

  lemma OwnerIsRevoked(rows: seq<RefreshToken>, who: RefreshToken, now: Time)
    ensures OwnerRevoked(rows, RevokeBySubject(rows, who.Owner(), now), who, now)
  {
  }

  // ---- The second factor ----

  /** Admins and all others have their records in different tables. */
  function RecordOf(db: Tables, subj: Subject): Option<TwoFA> {
    if subj.kind == KindAdmin
    then if subj.adminId in db.admin2fa then Some(db.admin2fa[subj.adminId]) else None
    else if subj.userId in db.user2fa then Some(db.user2fa[subj.userId]) else None
  }

  /** The tables of second factors differ in this subject's entry only, and no other table differs. */
  predicate OnlyRecordChanges(db: Tables, d: Tables, subj: Subject) {
    if subj.kind == KindAdmin
    then d == db.(admin2fa := d.admin2fa) && d.admin2fa - {subj.adminId} == db.admin2fa - {subj.adminId}
    else d == db.(user2fa := d.user2fa) && d.user2fa - {subj.userId} == db.user2fa - {subj.userId}
  }

  predicate SixDigits(c: string) {
    |c| == 6 && forall i :: 0 <= i < 6 ==> '0' <= c[i] <= '9'
  }

  /** One of the stored hashes was made from this code. */
  predicate StoredCode(rec: TwoFA, c: string) {
    exists i :: 0 <= i < |rec.backupCodesHash| && rec.backupCodesHash[i].secret == c
  }

  /** The code is right: six digits that the TOTP library confirms, or a backup code still stored. */
  predicate RightCodeFor(rec: TwoFA, code: string, totp: TotpAnswer) {
    var c := TrimSpace(ToUpper(code));
    c != "" && if SixDigits(c) then totp == RightCode else StoredCode(rec, c)
  }

  /** The subject has a record, and the code is right for it. */
  predicate RightCodeOf(db: Tables, subj: Subject, code: string, totp: TotpAnswer) {
    RecordOf(db, subj).Some? && RightCodeFor(RecordOf(db, subj).value, code, totp)
  }
}
