/** The second factor over whole runs: when a subject is enrolled, and how its backup codes are spent. */
module AuthSecondFactor {
  import opened Domain
  import opened AccessTokens
  import opened Strings
  import opened Store
  import opened Flows
  import opened AuthRuns
  import opened Plain
  import opened SecondFactorPromises

  /** A code presented for a subject. */
  datatype Attempt = Attempt(subj: Subject, code: string, totp: TotpAnswer, now: Time)

  /** The call of Verify2FA that a step makes, if it makes one. */
  function AttemptOf(cfg: TokenConfig, op: Op): Option<Attempt> {
    match op
    case Verify(subj, code, totp, now) => Some(Attempt(subj, code, totp, now))
    case Complete(partial, code, totp, _, parsedAt, confirmedAt, _) =>
      var subj := ParsePartialToken(cfg, partial, parsedAt);
      if subj.Ok? then Some(Attempt(subj.value, code, totp, confirmedAt)) else None
    case _ => None
  }

  /** The code is right: six digits that the TOTP library confirms, or a backup code still stored. */
  predicate Succeeds(db: Tables, a: Attempt) {
    RightCodeOf(db, a.subj, a.code, a.totp)
  }

  /** The step verifies a code of `subj`. */
  predicate Verifies(cfg: TokenConfig, db: Tables, op: Op, subj: Subject) {
    var a := AttemptOf(cfg, op);
    a.Some? && SameRecord(a.value.subj, subj) && Succeeds(db, a.value)
  }

  predicate Enrolls(db: Tables, op: Op, subj: Subject) {
    op.Enroll? && SameRecord(op.subj, subj) && AccountExists(db, op.subj)
  }

  predicate Disables(op: Op, subj: Subject) {
    op.Disable? && SameRecord(op.subj, subj)
  }

  // ---- One step, seen from the record of one subject ----

  lemma PutGet(db: Tables, s: Subject, rec: TwoFA, subj: Subject)
    ensures GetTwoFA(PutTwoFA(db, s, rec), subj) == if SameRecord(s, subj) then Some(rec) else GetTwoFA(db, subj)
  {
  }

  lemma DeleteGet(db: Tables, s: Subject, subj: Subject)
    ensures GetTwoFA(DeleteTwoFA(db, s), subj) == if SameRecord(s, subj) then None else GetTwoFA(db, subj)
  {
  }

  /** The stored hash that a verification consumes: none for a TOTP code. */
  function SpentBy(rec: TwoFA, code: string): Option<PasswordHash> {
    if IsTOTPShape(NormalCode(code)) then None else
      var at := FindCode(rec.backupCodesHash, NormalCode(code));
      if at.None? then None else Some(rec.backupCodesHash[at.value])
  }

  function Less(hashes: seq<PasswordHash>, spent: Option<PasswordHash>): seq<PasswordHash> {
    if spent.None? then hashes else Without(hashes, spent.value, |hashes|)
  }

  /** The record after a verification that succeeds. */
  function VerifiedRecord(rec: TwoFA, a: Attempt): TwoFA {
    TwoFA(rec.encryptedSecret, Less(rec.backupCodesHash, SpentBy(rec, a.code)),
          if rec.IsEnrolled() then rec.enrolledAt else Some(a.now))
  }

  lemma ConfirmedRecord(db: Tables, s: Subject, rec: TwoFA, now: Time, subj: Subject)
    requires GetTwoFA(db, s) == Some(rec)
    ensures GetTwoFA(Confirm(db, s, rec.IsEnrolled(), now), subj) ==
            if SameRecord(s, subj) then Some(if rec.IsEnrolled() then rec else rec.(enrolledAt := Some(now)))
            else GetTwoFA(db, subj)
  {
    PutGet(db, s, rec.(enrolledAt := Some(now)), subj);
  }

  lemma ConsumedRecord(db: Tables, s: Subject, rec: TwoFA, hash: PasswordHash, subj: Subject)
    requires GetTwoFA(db, s) == Some(rec)
    ensures GetTwoFA(ConsumeBackupCode(db, s, hash), subj) ==
            if SameRecord(s, subj)
            then Some(rec.(backupCodesHash := Without(rec.backupCodesHash, hash, |rec.backupCodesHash|)))
            else GetTwoFA(db, subj)
  {
    PutGet(db, s, rec.(backupCodesHash := Without(rec.backupCodesHash, hash, |rec.backupCodesHash|)), subj);
  }

  lemma VerifyRecord(db: Tables, a: Attempt, subj: Subject)
    ensures var rec := GetTwoFA(db, a.subj);
            && (Succeeds(db, a) ==> rec.Some?)
            && GetTwoFA(Verify2FA(db, a.subj, a.code, a.totp, a.now).0, subj) ==
               if Succeeds(db, a) && SameRecord(a.subj, subj) then Some(VerifiedRecord(rec.value, a))
               else GetTwoFA(db, subj)
  {
    var rec := GetTwoFA(db, a.subj);
    VerificationAnswersTheCode(db, a.subj, a.code, a.totp, a.now);
    if Succeeds(db, a) {
      var spent := SpentBy(rec.value, a.code);
      if spent.None? {
        ConfirmedRecord(db, a.subj, rec.value, a.now, subj);
      } else {
        var left := rec.value.(backupCodesHash := Less(rec.value.backupCodesHash, spent));
        ConsumedRecord(db, a.subj, rec.value, spent.value, a.subj);
        ConsumedRecord(db, a.subj, rec.value, spent.value, subj);
        ConfirmedRecord(ConsumeBackupCode(db, a.subj, spent.value), a.subj, left, a.now, subj);
      }
    }
  }

  predicate SameTwoFA(a: Tables, b: Tables) {
    a.user2fa == b.user2fa && a.admin2fa == b.admin2fa
  }

  lemma LoginUserKeepsTwoFA(cfg: TokenConfig, db: Tables, email: string, password: string, ids: MintIds, now: Time)
    ensures SameTwoFA(db, LoginUser(cfg, db, email, password, ids, now).0)
  {
  }

  lemma LoginAdminKeepsTwoFA(cfg: TokenConfig, db: Tables, email: string, password: string, ids: MintIds, now: Time)
    ensures SameTwoFA(db, LoginAdmin(cfg, db, email, password, ids, now).0)
  {
  }

  lemma RegisterKeepsTwoFA(cfg: TokenConfig, db: Tables, reg: Registration, userId: Text, salt: nat, ids: MintIds,
                           now: Time)
    ensures SameTwoFA(db, RegisterUser(cfg, db, reg, userId, salt, ids, now).0)
  {
  }

  lemma RefreshKeepsTwoFA(cfg: TokenConfig, db: Tables, raw: Text, ids: MintIds, checkedAt: Time, mintedAt: Time,
                          revokedAt: Time)
    ensures SameTwoFA(db, Refresh(cfg, db, raw, ids, checkedAt, mintedAt, revokedAt).0)
  {
  }

  lemma ConfirmKeepsTwoFA(db: Tables, token: Padded, password: string, salt: nat, checkedAt: Time, markedAt: Time,
                          revokedAt: Time)
    ensures SameTwoFA(db, ConfirmPasswordReset(db, token, password, salt, checkedAt, markedAt, revokedAt).0)
  {
  }

  /** Calls that neither verify a code, nor enrol, nor disable. */
  lemma OthersKeepTwoFA(cfg: TokenConfig, db: Tables, op: Op)
    requires !op.Complete? && !op.Verify? && !op.Enroll? && !op.Disable?
    ensures SameTwoFA(db, Perform(cfg, db, op).0)
  {
    match op
    case Register(reg, userId, salt, ids, now) => RegisterKeepsTwoFA(cfg, db, reg, userId, salt, ids, now);
    case UserLogin(email, password, ids, now) => LoginUserKeepsTwoFA(cfg, db, email, password, ids, now);
    case AdminLogin(email, password, ids, now) => LoginAdminKeepsTwoFA(cfg, db, email, password, ids, now);
    case RefreshWith(raw, ids, checkedAt, mintedAt,
                     revokedAt) => RefreshKeepsTwoFA(cfg, db, raw, ids, checkedAt, mintedAt, revokedAt);
    case ConfirmReset(token, password, salt, checkedAt, markedAt, revokedAt) =>
      ConfirmKeepsTwoFA(db, token, password, salt, checkedAt, markedAt, revokedAt);
    case _ =>
  }

  lemma FinishKeepsTwoFA(cfg: TokenConfig, db: Tables, subj: Subject, ids: MintIds, now: Time)
    ensures SameTwoFA(db, FinishLogin(cfg, db, subj, ids, now).0)
  {
  }

  /** The login that follows a verified code leaves the records alone. */
  lemma CompleteIsVerify(cfg: TokenConfig, db: Tables, partial: Token, code: string, totp: TotpAnswer, ids: MintIds,
                         parsedAt: Time, confirmedAt: Time, mintedAt: Time)
    ensures var subj := ParsePartialToken(cfg, partial, parsedAt);
            SameTwoFA(if subj.Ok? then Verify2FA(db, subj.value, code, totp, confirmedAt).0 else db,
                      CompleteLogin2FA(cfg, db, partial, code, totp, ids, parsedAt, confirmedAt, mintedAt).0)
  {
    var subj := ParsePartialToken(cfg, partial, parsedAt);
    if subj.Ok? {
      FinishKeepsTwoFA(cfg, Verify2FA(db, subj.value, code, totp, confirmedAt).0, subj.value, ids, mintedAt);
    }
  }

  lemma AttemptRecord(cfg: TokenConfig, db: Tables, op: Op, subj: Subject)
    requires AttemptOf(cfg, op).Some?
    ensures var a := AttemptOf(cfg, op).value;
            GetTwoFA(Perform(cfg, db, op).0, subj) == GetTwoFA(Verify2FA(db, a.subj, a.code, a.totp, a.now).0, subj)
  {
    if op.Complete? {
      CompleteIsVerify(cfg, db, op.partial, op.code, op.totp, op.ids, op.parsedAt, op.confirmedAt, op.mintedAt);
    }
  }

  /** The record of `subj` after a step: a new one after an enrolment, none after disabling, one code
      less after a backup code, and the same after every step that concerns another record. */
  function RecordAfter(cfg: TokenConfig, db: Tables, op: Op, subj: Subject): Option<TwoFA> {
    var rec := GetTwoFA(db, subj);
    if Enrolls(db, op, subj) then Some(TwoFA(op.secret, Hashes(op.issue), None))
    else if Disables(op, subj) then None
    else if Verifies(cfg, db, op, subj) && rec.Some? then Some(VerifiedRecord(rec.value, AttemptOf(cfg, op).value))
    else rec
  }

  lemma SameRecordSameGet(db: Tables, a: Subject, b: Subject)
    requires SameRecord(a, b)
    ensures GetTwoFA(db, a) == GetTwoFA(db, b)
  {
  }

  lemma RecordStep(cfg: TokenConfig, db: Tables, op: Op, subj: Subject)
    ensures GetTwoFA(Perform(cfg, db, op).0, subj) == RecordAfter(cfg, db, op, subj)
    ensures Verifies(cfg, db, op, subj) ==> GetTwoFA(db, subj).Some?
  {
    if AttemptOf(cfg, op).Some? {
      var a := AttemptOf(cfg, op).value;
      AttemptRecord(cfg, db, op, subj);
      VerifyRecord(db, a, subj);
      if SameRecord(a.subj, subj) {
        SameRecordSameGet(db, a.subj, subj);
      }
    } else if op.Complete? {
      CompleteIsVerify(cfg, db, op.partial, op.code, op.totp, op.ids, op.parsedAt, op.confirmedAt, op.mintedAt);
    } else if op.Enroll? {
      PutGet(db, op.subj, TwoFA(op.secret, Hashes(op.issue), None), subj);
    } else if op.Disable? {
      DeleteGet(db, op.subj, subj);
    } else {
      OthersKeepTwoFA(cfg, db, op);
    }
  }

  // ---- Enrolment ----

  predicate Clears(db: Tables, op: Op, subj: Subject) {
    Enrolls(db, op, subj) || Disables(op, subj)
  }

  /** No step from `from` on, before step `n`, cleared the record of `subj`. */
  ghost predicate NoClear(r: Run, from: nat, n: nat, subj: Subject)
    requires n <= |r.ops|
  {
    forall j :: from <= j < n ==> !Clears(r.db(j), r.ops[j], subj)
  }

  /** A code of `subj` was verified at step `k`, and the record was not cleared from then to `n`. */
  ghost predicate VerifiedSince(cfg: TokenConfig, r: Run, k: nat, n: nat, subj: Subject)
    requires n <= |r.ops|
  {
    k < n && Verifies(cfg, r.db(k), r.ops[k], subj) && NoClear(r, k + 1, n, subj)
  }

  lemma EnrolledStep(cfg: TokenConfig, db: Tables, op: Op, subj: Subject)
    ensures Enrolled(Perform(cfg, db, op).0, subj) ==
            (!Clears(db, op, subj) && (Verifies(cfg, db, op, subj) || Enrolled(db, subj)))
    ensures !(Clears(db, op, subj) && Verifies(cfg, db, op, subj))
  {
    RecordStep(cfg, db, op, subj);
  }

  // ---- A flag that some steps set and others clear ----

  predicate Quiet(clears: seq<bool>, from: nat, n: nat)
    requires n <= |clears|
  {
    forall j :: from <= j < n ==> !clears[j]
  }

  predicate SetSince(sets: seq<bool>, clears: seq<bool>, k: nat, n: nat)
    requires n <= |sets| == |clears|
  {
    k < n && sets[k] && Quiet(clears, k + 1, n)
  }

  /** Step `k` sets the flag, clears it, or leaves it. */
  predicate FlagStep(flag: seq<bool>, sets: seq<bool>, clears: seq<bool>, k: nat)
    requires |sets| == |clears| && |flag| == |sets| + 1
  {
    k < |sets| ==> flag[k + 1] == (!clears[k] && (sets[k] || flag[k])) && !(sets[k] && clears[k])
  }

  lemma {:induction false} FlagIsExact(flag: seq<bool>, sets: seq<bool>, clears: seq<bool>, n: nat)
    requires n <= |sets| == |clears| && |flag| == |sets| + 1
    requires forall k :: FlagStep(flag, sets, clears, k)
    ensures flag[n] <==> (exists k :: SetSince(sets, clears, k, n)) || (flag[0] && Quiet(clears, 0, n))
  {
    if n > 0 {
      var m: nat := n - 1;
      FlagIsExact(flag, sets, clears, m);
      assert FlagStep(flag, sets, clears, m);
      assert Quiet(clears, 0, n) <==> Quiet(clears, 0, m) && !clears[m];
      if sets[m] {
        assert SetSince(sets, clears, m, n);
      } else if clears[m] {
        assert forall k: nat :: !SetSince(sets, clears, k, n);
      } else {
        assert forall k: nat :: SetSince(sets, clears, k, m) ==> SetSince(sets, clears, k, n);
        assert forall k: nat :: SetSince(sets, clears, k, n) ==> SetSince(sets, clears, k, m);
      }
    }
  }

  /** The three histories of the record of `subj`, as sequences of flags. */
  function EnrolledHistory(r: Run, subj: Subject): seq<bool> {
    seq(|r.ops| + 1, k requires 0 <= k <= |r.ops| => Enrolled(r.db(k), subj))
  }

  function VerifyHistory(cfg: TokenConfig, r: Run, subj: Subject): seq<bool> {
    seq(|r.ops|, k requires 0 <= k < |r.ops| => Verifies(cfg, r.db(k), r.ops[k], subj))
  }

  function ClearHistory(r: Run, subj: Subject): seq<bool> {
    seq(|r.ops|, k requires 0 <= k < |r.ops| => Clears(r.db(k), r.ops[k], subj))
  }

  lemma HistoryStep(cfg: TokenConfig, r: Run, subj: Subject, k: nat)
    requires StepOk(cfg, r, k) && k < |r.ops|
    ensures var flag, sets, clears := EnrolledHistory(r, subj), VerifyHistory(cfg, r, subj), ClearHistory(r, subj);
            FlagStep(flag, sets, clears, k)
  {
    EnrolledStep(cfg, r.db(k), r.ops[k], subj);
  }

  lemma NoClearIsQuiet(r: Run, from: nat, n: nat, subj: Subject)
    requires n <= |r.ops|
    ensures NoClear(r, from, n, subj) <==> Quiet(ClearHistory(r, subj), from, n)
  {
    var clears := ClearHistory(r, subj);
    assert forall j :: 0 <= j < n ==> clears[j] == Clears(r.db(j), r.ops[j], subj);
  }

  lemma VerifiedSinceIsSet(cfg: TokenConfig, r: Run, k: nat, n: nat, subj: Subject)
    requires n <= |r.ops|
    ensures VerifiedSince(cfg, r, k, n, subj) <==>
            SetSince(VerifyHistory(cfg, r, subj), ClearHistory(r, subj), k, n)
  {
    NoClearIsQuiet(r, k + 1, n, subj);
  }

  /** Enrolment is exact: a record is enrolled when a code of its subject was verified with no enrolment
      and no disabling of that record since, or when it was enrolled from the start and never cleared;
      and in no other case. */
  lemma EnrolmentIsExact(cfg: TokenConfig, r: Run, n: nat, subj: Subject)
    requires IsRun(cfg, r) && n <= |r.ops|
    ensures Enrolled(r.db(n), subj) <==>
            || (exists k :: VerifiedSince(cfg, r, k, n, subj))
            || (Enrolled(r.db(0), subj) && NoClear(r, 0, n, subj))
  {
    var flag, sets, clears := EnrolledHistory(r, subj), VerifyHistory(cfg, r, subj), ClearHistory(r, subj);
    forall k: nat
      ensures FlagStep(flag, sets, clears, k)
    {
      if k < |r.ops| {
        assert StepOk(cfg, r, k);
        HistoryStep(cfg, r, subj, k);
      }
    }
    FlagIsExact(flag, sets, clears, n);
    forall k: nat
      ensures VerifiedSince(cfg, r, k, n, subj) <==> SetSince(sets, clears, k, n)
    {
      VerifiedSinceIsSet(cfg, r, k, n, subj);
    }
    NoClearIsQuiet(r, 0, n, subj);
  }
}
