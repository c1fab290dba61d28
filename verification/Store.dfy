/** The Postgres tables and the SQL statements on them. Every statement is one atomic step; each is
    a function on the table's rows, and a method of `DB` that applies it. Rows are kept in the
    order of insertion, and a statement that changes rows leaves the others where they are. */
module Store {
  import opened Domain
  import opened AccessTokens

  datatype Tables = Tables(
    users: seq<User>,
    admins: seq<Admin>,
    refresh: seq<RefreshToken>,
    resets: seq<PasswordReset>,
    user2fa: map<Text, TwoFA>,
    admin2fa: map<Text, TwoFA>,
    revoked: RevokedSet)

  /** The first row from position `i` on that satisfies `p`. */
  function FirstFrom<T>(rows: seq<T>, p: T -> bool, i: nat): (r: Option<nat>)
    requires i <= |rows|
    ensures r.Some? ==> i <= r.value < |rows| && p(rows[r.value]) && forall j :: i <= j < r.value ==> !p(rows[j])
    ensures r.None? ==> forall j :: i <= j < |rows| ==> !p(rows[j])
    decreases |rows| - i
  {
    if i == |rows| then None else if p(rows[i]) then Some(i) else FirstFrom(rows, p, i + 1)
  }

  lemma FirstIs<T>(rows: seq<T>, p: T -> bool, i: nat, k: nat)
    requires i <= k < |rows| && p(rows[k]) && forall j :: i <= j < k ==> !p(rows[j])
    ensures FirstFrom(rows, p, i) == Some(k)
  {
  }

  lemma NoneIs<T>(rows: seq<T>, p: T -> bool, i: nat)
    requires i <= |rows| && forall j :: i <= j < |rows| ==> !p(rows[j])
    ensures FirstFrom(rows, p, i) == None
  {
  }

  // ---- refresh_tokens ----

  function FindRefresh(rows: seq<RefreshToken>, hash: Digest): Option<nat> {
    FirstFrom(rows, (t: RefreshToken) => t.tokenHash == hash, 0)
  }

  predicate HasRefreshId(rows: seq<RefreshToken>, id: Text) {
    exists i :: 0 <= i < |rows| && rows[i].id == id
  }

  /** WHERE id = ... AND revoked_at IS NULL */
  predicate Revocable(t: RefreshToken, id: Text) {
    t.id == id && t.revokedAt.None?
  }

  predicate RevokeAffects(rows: seq<RefreshToken>, id: Text) {
    exists i :: 0 <= i < |rows| && Revocable(rows[i], id)
  }

  function RevokedRow(t: RefreshToken, id: Text, replacedBy: Option<Text>, now: Time): RefreshToken {
    if Revocable(t, id) then t.(revokedAt := Some(now), replacedById := replacedBy) else t
  }

  function RevokeById(rows: seq<RefreshToken>, id: Text, replacedBy: Option<Text>, now: Time): seq<RefreshToken> {
    seq(|rows|, i requires 0 <= i < |rows| => RevokedRow(rows[i], id, replacedBy, now))
  }

  /** WHERE admin_id = ... for an admin, WHERE user_id = ... for every other kind. */
  predicate OwnedBy(t: RefreshToken, subj: Subject) {
    if subj.kind == KindAdmin then t.adminId == Some(subj.adminId) else t.userId == Some(subj.userId)
  }

  function RevokedOf(t: RefreshToken, subj: Subject, now: Time): RefreshToken {
    if OwnedBy(t, subj) && t.revokedAt.None? then t.(revokedAt := Some(now)) else t
  }

  /** The first revocation of an id is the only one: it stamps exactly the unrevoked rows of the id, it
      reports a change exactly when there is one, and a second one finds nothing and changes nothing. */
  lemma RevocationIsOnce(rows: seq<RefreshToken>, id: Text, replacedBy: Option<Text>, now: Time,
                         replacedBy2: Option<Text>, later: Time)
    ensures var after := RevokeById(rows, id, replacedBy, now);
            && (RevokeAffects(rows, id) <==> after != rows)
            && OnlyStamped(rows, after, id, replacedBy, now)
            && !RevokeAffects(after, id) && RevokeById(after, id, replacedBy2, later) == after
  {
    var after := RevokeById(rows, id, replacedBy, now);
    if i :| 0 <= i < |rows| && Revocable(rows[i], id) {
      assert after[i] != rows[i];
    }
  }

  /** The unrevoked rows of the id carry the time and the successor; every other row is as it was. */
  ghost predicate OnlyStamped(rows: seq<RefreshToken>, after: seq<RefreshToken>, id: Text, replacedBy: Option<Text>,
                              now: Time) {
    && |after| == |rows|
    && forall i :: 0 <= i < |rows| ==>
         if rows[i].id == id && rows[i].revokedAt.None?
         then after[i] == rows[i].(revokedAt := Some(now), replacedById := replacedBy) else after[i] == rows[i]
  }

  function RevokeBySubject(rows: seq<RefreshToken>, subj: Subject, now: Time): seq<RefreshToken> {
    seq(|rows|, i requires 0 <= i < |rows| => RevokedOf(rows[i], subj, now))
  }

  // ---- password_resets ----

  function FindReset(rows: seq<PasswordReset>, hash: Digest): Option<nat> {
    FirstFrom(rows, (p: PasswordReset) => p.tokenHash == hash, 0)
  }

  predicate Unused(p: PasswordReset, id: Text) {
    p.id == id && p.usedAt.None?
  }

  predicate MarkAffects(rows: seq<PasswordReset>, id: Text) {
    exists i :: 0 <= i < |rows| && Unused(rows[i], id)
  }

  function MarkUsed(rows: seq<PasswordReset>, id: Text, now: Time): seq<PasswordReset> {
    seq(|rows|, i requires 0 <= i < |rows| => if Unused(rows[i], id) then rows[i].(usedAt := Some(now)) else rows[i])
  }

  /** A record is used once: marking stamps exactly the unused record of the id, it reports a change
      exactly when there is one, and a second marking finds nothing and changes nothing. */
  lemma MarkingIsOnce(rows: seq<PasswordReset>, id: Text, now: Time, later: Time)
    ensures var after := MarkUsed(rows, id, now);
            && (MarkAffects(rows, id) <==> after != rows)
            && OnlyMarked(rows, after, id, now)
            && !MarkAffects(after, id) && MarkUsed(after, id, later) == after
  {
    var after := MarkUsed(rows, id, now);
    if i :| 0 <= i < |rows| && Unused(rows[i], id) {
      assert after[i] != rows[i];
    }
  }

  ghost predicate OnlyMarked(rows: seq<PasswordReset>, after: seq<PasswordReset>, id: Text, now: Time) {
    && |after| == |rows|
    && forall i :: 0 <= i < |rows| ==>
         if rows[i].id == id && rows[i].usedAt.None?
         then after[i] == rows[i].(usedAt := Some(now)) else after[i] == rows[i]
  }

  // ---- users and admins ----

  function FindUser(users: seq<User>, id: Text): Option<nat> {
    FirstFrom(users, (u: User) => u.id == id, 0)
  }

  /** Soft-deleted users are invisible to a lookup by email. */
  function FindUserByEmail(users: seq<User>, email: string): Option<nat> {
    FirstFrom(users, (u: User) => u.email == email && u.deletedAt.None?, 0)
  }

  function FindAdmin(admins: seq<Admin>, id: Text): Option<nat> {
    FirstFrom(admins, (a: Admin) => a.id == id, 0)
  }

  function FindAdminByEmail(admins: seq<Admin>, email: string): Option<nat> {
    FirstFrom(admins, (a: Admin) => a.email == email, 0)
  }

  predicate UserUpdateAffects(users: seq<User>, id: Text) {
    exists i :: 0 <= i < |users| && users[i].id == id && users[i].deletedAt.None?
  }

  function SetUserPassword(users: seq<User>, id: Text, hash: PasswordHash): seq<User> {
    seq(|users|, i requires 0 <= i < |users| =>
      if users[i].id == id && users[i].deletedAt.None? then users[i].(passwordHash := hash) else users[i])
  }

  predicate AdminUpdateAffects(admins: seq<Admin>, id: Text) {
    exists i :: 0 <= i < |admins| && admins[i].id == id
  }

  function SetAdminPassword(admins: seq<Admin>, id: Text, hash: PasswordHash): seq<Admin> {
    seq(|admins|, i requires 0 <= i < |admins| =>
      if admins[i].id == id then admins[i].(passwordHash := hash) else admins[i])
  }

  lemma NoUserWritten(users: seq<User>, id: Text, hash: PasswordHash)
    requires !UserUpdateAffects(users, id)
    ensures SetUserPassword(users, id, hash) == users
  {
  }

  lemma NoAdminWritten(admins: seq<Admin>, id: Text, hash: PasswordHash)
    requires !AdminUpdateAffects(admins, id)
    ensures SetAdminPassword(admins, id, hash) == admins
  {
  }

  // ---- user_2fa and admin_2fa: two tables with the same columns ----

  function GetTwoFA(db: Tables, subj: Subject): Option<TwoFA> {
    var table := if subj.kind == KindAdmin then db.admin2fa else db.user2fa;
    if subj.ID() in table then Some(table[subj.ID()]) else None
  }

  function PutTwoFA(db: Tables, subj: Subject, rec: TwoFA): Tables {
    if subj.kind == KindAdmin then db.(admin2fa := db.admin2fa[subj.adminId := rec])
    else db.(user2fa := db.user2fa[subj.userId := rec])
  }

  function DeleteTwoFA(db: Tables, subj: Subject): Tables {
    if subj.kind == KindAdmin then db.(admin2fa := db.admin2fa - {subj.adminId})
    else db.(user2fa := db.user2fa - {subj.userId})
  }

  /** array_remove: every element equal to `x` goes. */
  function Without<T(==)>(xs: seq<T>, x: T, n: nat): seq<T>
    requires n <= |xs|
  {
    if n == 0 then [] else
      var rest := Without(xs, x, n - 1);
      if xs[n - 1] == x then rest else rest + [xs[n - 1]]
  }

  /** Two subjects with the same row in the same one of the two tables. */
  predicate SameRecord(a: Subject, b: Subject) {
    (a.kind == KindAdmin <==> b.kind == KindAdmin) && a.ID() == b.ID()
  }

  lemma CountAppended<T>(xs: seq<T>, last: T, y: T)
    ensures multiset(xs + [last])[y] == multiset(xs)[y] + if last == y then 1 else 0
  {
  }

  lemma {:induction false} WithoutCounts<T>(xs: seq<T>, x: T, y: T, n: nat)
    requires n <= |xs|
    ensures multiset(Without(xs, x, n))[y] == if y == x then 0 else multiset(xs[..n])[y]
  {
    if n > 0 {
      WithoutCounts(xs, x, y, n - 1);
      assert xs[..n] == xs[..n - 1] + [xs[n - 1]];
      CountAppended(xs[..n - 1], xs[n - 1], y);
      CountAppended(Without(xs, x, n - 1), xs[n - 1], y);
    }
  }

  function ConsumeBackupCode(db: Tables, subj: Subject, hash: PasswordHash): Tables {
    var rec := GetTwoFA(db, subj);
    if rec.None? then db else
      var left := Without(rec.value.backupCodesHash, hash, |rec.value.backupCodesHash|);
      PutTwoFA(db, subj, rec.value.(backupCodesHash := left))
  }

  /** The consumed hash is gone from the record, however often it was there; every other hash is there
      as often as before, the rest of the record stays, and so does every other record. */
  lemma ConsumedHashIsGone(db: Tables, subj: Subject, hash: PasswordHash, kept: PasswordHash, other: Subject)
    ensures var before, after := GetTwoFA(db, subj), GetTwoFA(ConsumeBackupCode(db, subj, hash), subj);
            && (before.None? ==> after.None?)
            && (before.Some? ==>
                  && after.Some? && hash !in after.value.backupCodesHash
                  && (kept != hash ==>
                        multiset(after.value.backupCodesHash)[kept] == multiset(before.value.backupCodesHash)[kept])
                  && after.value == before.value.(backupCodesHash := after.value.backupCodesHash))
    ensures !SameRecord(subj, other) ==> GetTwoFA(ConsumeBackupCode(db, subj, hash), other) == GetTwoFA(db, other)
  {
    var before := GetTwoFA(db, subj);
    if before.Some? {
      var hashes := before.value.backupCodesHash;
      WithoutCounts(hashes, hash, hash, |hashes|);
      WithoutCounts(hashes, hash, kept, |hashes|);
      assert hashes[..|hashes|] == hashes;
      assert multiset(Without(hashes, hash, |hashes|))[hash] == 0;
    }
  }

  function MarkEnrolled(db: Tables, subj: Subject, at: Time): Tables {
    var rec := GetTwoFA(db, subj);
    if rec.None? then db else PutTwoFA(db, subj, rec.value.(enrolledAt := Some(at)))
  }

  /** Stamping reaches one record at most: the subject's, when there is one, and then nothing but its
      time of enrolment; every other record stays. */
  lemma StampedRecord(db: Tables, subj: Subject, at: Time, other: Subject)
    ensures var after := GetTwoFA(MarkEnrolled(db, subj, at), other);
            if SameRecord(subj, other) && GetTwoFA(db, subj).Some?
            then after == Some(GetTwoFA(db, subj).value.(enrolledAt := Some(at))) && after.value.IsEnrolled()
            else after == GetTwoFA(db, other)
  {
  }

  // ---- The database object ----

  class DB {
    var users: seq<User>
    var admins: seq<Admin>
    var refresh: seq<RefreshToken>
    var resets: seq<PasswordReset>
    var user2fa: map<Text, TwoFA>
    var admin2fa: map<Text, TwoFA>
    var revoked: RevokedSet

    constructor (t: Tables)
      ensures Snapshot() == t
    {
      users, admins, refresh, resets := t.users, t.admins, t.refresh, t.resets;
      user2fa, admin2fa, revoked := t.user2fa, t.admin2fa, t.revoked;
    }

    function Snapshot(): Tables
      reads this
    {
      Tables(users, admins, refresh, resets, user2fa, admin2fa, revoked)
    }

    /** The only error of an INSERT in this model is an id that is already taken. */
    method CreateRefresh(t: RefreshToken) returns (r: Result<()>)
      modifies this`refresh
      ensures r == if HasRefreshId(old(refresh), t.id) then Err(Internal) else Ok(())
      ensures refresh == if r.Ok? then old(refresh) + [t] else old(refresh)
    {
      if HasRefreshId(refresh, t.id) {
        return Err(Internal);
      }
      refresh := refresh + [t];
      return Ok(());
    }

    method GetRefreshByHash(hash: Digest) returns (r: Result<RefreshToken>)
      ensures var at := FindRefresh(refresh, hash); r == if at.Some? then Ok(refresh[at.value]) else Err(NotFound)
    {
      var at := FindRefresh(refresh, hash);
      r := if at.Some? then Ok(refresh[at.value]) else Err(NotFound);
    }

    /** Fails when no row changed. An empty `replacedBy` stores NULL. */
    method RevokeRefresh(id: Text, replacedBy: Text, now: Time) returns (r: Result<()>)
      modifies this`refresh
      ensures r == if RevokeAffects(old(refresh), id) then Ok(()) else Err(NotFound)
      ensures refresh == RevokeById(old(refresh), id, NonEmpty(replacedBy), now)
      ensures (r.Err? <==> refresh == old(refresh)) && !RevokeAffects(refresh, id)
      ensures OnlyStamped(old(refresh), refresh, id, NonEmpty(replacedBy), now)
    {
      RevocationIsOnce(refresh, id, NonEmpty(replacedBy), now, None, now);
      r := if RevokeAffects(refresh, id) then Ok(()) else Err(NotFound);
      refresh := RevokeById(refresh, id, NonEmpty(replacedBy), now);
    }

    method RevokeRefreshBySubject(subj: Subject, now: Time)
      modifies this`refresh
      ensures refresh == RevokeBySubject(old(refresh), subj, now)
    {
      refresh := RevokeBySubject(refresh, subj, now);
    }

    method CreateReset(p: PasswordReset)
      modifies this`resets
      ensures resets == old(resets) + [p]
    {
      resets := resets + [p];
    }

    method GetResetByHash(hash: Digest) returns (r: Result<PasswordReset>)
      ensures var at := FindReset(resets, hash); r == if at.Some? then Ok(resets[at.value]) else Err(NotFound)
    {
      var at := FindReset(resets, hash);
      r := if at.Some? then Ok(resets[at.value]) else Err(NotFound);
    }

    method MarkResetUsed(id: Text, now: Time) returns (r: Result<()>)
      modifies this`resets
      ensures r == if MarkAffects(old(resets), id) then Ok(()) else Err(NotFound)
      ensures resets == MarkUsed(old(resets), id, now)
      ensures (r.Err? <==> resets == old(resets)) && !MarkAffects(resets, id)
      ensures OnlyMarked(old(resets), resets, id, now)
    {
      MarkingIsOnce(resets, id, now, now);
      r := if MarkAffects(resets, id) then Ok(()) else Err(NotFound);
      resets := MarkUsed(resets, id, now);
    }

    method CreateUser(u: User) returns (r: Result<()>)
      modifies this`users
      ensures r == if FindUser(old(users), u.id).Some? then Err(Internal) else Ok(())
      ensures users == if r.Ok? then old(users) + [u] else old(users)
    {
      if FindUser(users, u.id).Some? {
        return Err(Internal);
      }
      users := users + [u];
      return Ok(());
    }

    method UpdateUserPassword(id: Text, hash: PasswordHash) returns (r: Result<()>)
      modifies this`users
      ensures r == if UserUpdateAffects(old(users), id) then Ok(()) else Err(NotFound)
      ensures users == SetUserPassword(old(users), id, hash)
    {
      r := if UserUpdateAffects(users, id) then Ok(()) else Err(NotFound);
      users := SetUserPassword(users, id, hash);
    }

    method UpdateAdminPassword(id: Text, hash: PasswordHash) returns (r: Result<()>)
      modifies this`admins
      ensures r == if AdminUpdateAffects(old(admins), id) then Ok(()) else Err(NotFound)
      ensures admins == SetAdminPassword(old(admins), id, hash)
    {
      r := if AdminUpdateAffects(admins, id) then Ok(()) else Err(NotFound);
      admins := SetAdminPassword(admins, id, hash);
    }

    method UpsertTwoFA(subj: Subject, rec: TwoFA)
      modifies this`user2fa, this`admin2fa
      ensures Snapshot() == PutTwoFA(old(Snapshot()), subj, rec)
    {
      if subj.kind == KindAdmin {
        admin2fa := admin2fa[subj.adminId := rec];
      } else {
        user2fa := user2fa[subj.userId := rec];
      }
    }

    method RemoveTwoFA(subj: Subject)
      modifies this`user2fa, this`admin2fa
      ensures Snapshot() == DeleteTwoFA(old(Snapshot()), subj)
    {
      if subj.kind == KindAdmin {
        admin2fa := admin2fa - {subj.adminId};
      } else {
        user2fa := user2fa - {subj.userId};
      }
    }

    method ConsumeCode(subj: Subject, hash: PasswordHash)
      modifies this`user2fa, this`admin2fa
      ensures Snapshot() == ConsumeBackupCode(old(Snapshot()), subj, hash)
      ensures GetTwoFA(Snapshot(), subj).Some? ==> hash !in GetTwoFA(Snapshot(), subj).value.backupCodesHash
    {
      var rec := GetTwoFA(Snapshot(), subj);
      ConsumedHashIsGone(Snapshot(), subj, hash, hash, subj);
      if rec.Some? {
        var hashes := rec.value.backupCodesHash;
        UpsertTwoFA(subj, rec.value.(backupCodesHash := Without(hashes, hash, |hashes|)));
      }
    }

    /** Fails when the subject has no record. */
    method SetEnrolled(subj: Subject, at: Time) returns (r: Result<()>)
      modifies this`user2fa, this`admin2fa
      ensures r == if GetTwoFA(old(Snapshot()), subj).Some? then Ok(()) else Err(NotFound)
      ensures Snapshot() == MarkEnrolled(old(Snapshot()), subj, at)
      ensures r.Ok? ==> GetTwoFA(Snapshot(), subj).Some? && GetTwoFA(Snapshot(), subj).value.enrolledAt == Some(at)
    {
      var rec := GetTwoFA(Snapshot(), subj);
      if rec.None? {
        return Err(NotFound);
      }
      UpsertTwoFA(subj, rec.value.(enrolledAt := Some(at)));
      return Ok(());
    }

    method AddRevokedJTI(jti: Text, row: RevokedJTI)
      modifies this`revoked
      ensures revoked == AddRevoked(old(revoked), jti, row)
      ensures jti in old(revoked) ==> revoked == old(revoked)
      ensures jti in revoked && forall k :: k != jti ==> (k in revoked <==> k in old(revoked))
    {
      revoked := AddRevoked(revoked, jti, row);
    }
  }
}
