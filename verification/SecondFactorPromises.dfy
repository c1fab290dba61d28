/** What an enrolment, a verification and a removal of the second factor do, read off the records. */
module SecondFactorPromises {
  import opened Domain
  import opened Strings
  import opened AccessTokens
  import opened Store
  import opened Flows
  import opened Plain

  // ---- Verification: the answer ----

  lemma CodeIsFound(rec: TwoFA, c: string)
    ensures FindCode(rec.backupCodesHash, c).Some? <==> StoredCode(rec, c)
  {
    var at := FindCode(rec.backupCodesHash, c);
    if at.Some? {
      assert rec.backupCodesHash[at.value].secret == c;
    }
  }

  /** The complaint about a code that is not right. */
  function WrongCodeError(db: Tables, subj: Subject, code: string, totp: TotpAnswer): Error {
    var c := TrimSpace(ToUpper(code));
    if c == "" then InvalidInput
    else if RecordOf(db, subj).None? then TwoFANotEnrolled
    else if SixDigits(c) && totp == DecryptFails then Internal
    else InvalidTwoFACode
  }

  /** The answer to a code: right, or which complaint. A wrong six-digit code is never accepted and a right
      one always is; a backup code is accepted exactly while its hash is stored. */
  lemma VerificationAnswersTheCode(db: Tables, subj: Subject, code: string, totp: TotpAnswer, now: Time)
    ensures var r := Verify2FA(db, subj, code, totp, now).1;
            && (r.Ok? <==> RightCodeOf(db, subj, code, totp))
            && (r.Err? ==> r.error == WrongCodeError(db, subj, code, totp))
  {
    var rec := RecordOf(db, subj);
    if rec.Some? {
      CodeIsFound(rec.value, TrimSpace(ToUpper(code)));
    }
  }

  // ---- Verification: the record ----

  /** The record after a right code: confirmed at `now` unless it was before, the secret kept; after a
      backup code without any hash of that code that was matched, every other hash kept. */
  ghost predicate RecordAfterCode(rec: TwoFA, after: TwoFA, code: string, now: Time) {
    var c := TrimSpace(ToUpper(code));
    && after.encryptedSecret == rec.encryptedSecret
    && after.enrolledAt == (if rec.enrolledAt.Some? then rec.enrolledAt else Some(now))
    && if SixDigits(c) then after.backupCodesHash == rec.backupCodesHash
       else exists k :: SpentAlone(rec, after, c, k)
  }

  /** The first stored hash of the code is gone, and the others are there as often as before. */
  ghost predicate SpentAlone(rec: TwoFA, after: TwoFA, c: string, k: nat) {
    && k < |rec.backupCodesHash| && rec.backupCodesHash[k].secret == c
    && (forall j :: 0 <= j < k ==> rec.backupCodesHash[j].secret != c)
    && forall h :: multiset(after.backupCodesHash)[h] ==
                   if h == rec.backupCodesHash[k] then 0 else multiset(rec.backupCodesHash)[h]
  }

  lemma SpendingOne(rec: TwoFA, at: Option<Time>, c: string)
    requires StoredCode(rec, c)
    ensures var k, hashes := FindCode(rec.backupCodesHash, c), rec.backupCodesHash;
            && k.Some?
            && SpentAlone(rec, TwoFA(rec.encryptedSecret, Without(hashes, hashes[k.value], |hashes|), at), c, k.value)
  {
    CodeIsFound(rec, c);
    var k := FindCode(rec.backupCodesHash, c).value;
    var hashes := rec.backupCodesHash;
    var left := Without(hashes, hashes[k], |hashes|);
    forall h
      ensures multiset(left)[h] == if h == hashes[k] then 0 else multiset(hashes)[h]
    {
      WithoutCounts(hashes, hashes[k], h, |hashes|);
      assert hashes[..|hashes|] == hashes;
    }
  }

  lemma ConfirmedOnly(db: Tables, subj: Subject, rec: TwoFA, now: Time)
    requires RecordOf(db, subj) == Some(rec)
    ensures var d := Confirm(db, subj, rec.enrolledAt.Some?, now);
            && OnlyRecordChanges(db, d, subj)
            && RecordOf(d, subj) == Some(if rec.enrolledAt.Some? then rec else rec.(enrolledAt := Some(now)))
  {
  }

  lemma ConsumedOnly(db: Tables, subj: Subject, rec: TwoFA, hash: PasswordHash)
    requires RecordOf(db, subj) == Some(rec)
    ensures var d := ConsumeBackupCode(db, subj, hash);
            && OnlyRecordChanges(db, d, subj)
            && RecordOf(d, subj) ==
               Some(rec.(backupCodesHash := Without(rec.backupCodesHash, hash, |rec.backupCodesHash|)))
  {
  }

  lemma ChangesCompose(a: Tables, b: Tables, c: Tables, subj: Subject)
    requires OnlyRecordChanges(a, b, subj) && OnlyRecordChanges(b, c, subj)
    ensures OnlyRecordChanges(a, c, subj)
  {
  }

  /** A right code changes this subject's record as it should and nothing else at all; any other code
      changes nothing. */
  lemma VerificationChangesTheRecord(db: Tables, subj: Subject, code: string, totp: TotpAnswer, now: Time)
    ensures var (d, r) := Verify2FA(db, subj, code, totp, now);
            && (r.Err? ==> d == db)
            && (r.Ok? ==> && RecordOf(db, subj).Some? && RecordOf(d, subj).Some? && OnlyRecordChanges(db, d, subj)
                          && RecordAfterCode(RecordOf(db, subj).value, RecordOf(d, subj).value, code, now))
  {
    var c := TrimSpace(ToUpper(code));
    VerificationAnswersTheCode(db, subj, code, totp, now);
    if Verify2FA(db, subj, code, totp, now).1.Ok? {
      var rec := RecordOf(db, subj).value;
      if SixDigits(c) {
        ConfirmedOnly(db, subj, rec, now);
      } else {
        SpendingOne(rec, if rec.enrolledAt.Some? then rec.enrolledAt else Some(now), c);
        var hash := rec.backupCodesHash[FindCode(rec.backupCodesHash, c).value];
        ConsumedOnly(db, subj, rec, hash);
        var left := rec.(backupCodesHash := Without(rec.backupCodesHash, hash, |rec.backupCodesHash|));
        var mid := ConsumeBackupCode(db, subj, hash);
        ConfirmedOnly(mid, subj, left, now);
        ChangesCompose(db, mid, Confirm(mid, subj, rec.enrolledAt.Some?, now), subj);
      }
    }
  }

  // ---- Enrolment and removal ----

  /** The account of the subject has a row, soft-deleted or not. */
  ghost predicate AccountHasRow(db: Tables, subj: Subject) {
    if subj.kind == KindAdmin then exists i :: 0 <= i < |db.admins| && db.admins[i].id == subj.adminId
    else exists i :: 0 <= i < |db.users| && db.users[i].id == subj.userId
  }

  /** An enrolment gives an existing account a fresh record, unconfirmed, whose hashes are those of exactly
      the codes handed out; it changes no other record, and nothing for an unknown account. */
  lemma EnrolmentStartsAfresh(db: Tables, subj: Subject, secret: Text, codes: seq<string>, salts: seq<nat>)
    requires |salts| == |codes|
    ensures var (d, r) := Enroll2FA(db, subj, secret, codes, salts);
            if !AccountHasRow(db, subj) then d == db && r == Err(NotFound)
            else
              && r == Ok(codes) && OnlyRecordChanges(db, d, subj) && RecordOf(d, subj).Some?
              && var rec := RecordOf(d, subj).value;
              && rec.encryptedSecret == secret && rec.enrolledAt == None && |rec.backupCodesHash| == |codes|
              && forall i :: 0 <= i < |codes| ==> rec.backupCodesHash[i] == Bcrypt(salts[i], codes[i])
  {
    if subj.kind == KindAdmin {
      var at := FindAdmin(db.admins, subj.adminId);
      assert at.Some? <==> AccountHasRow(db, subj);
    } else {
      var at := FindUser(db.users, subj.userId);
      assert at.Some? <==> AccountHasRow(db, subj);
    }
  }

  /** Disabling removes the record and nothing else. */
  lemma DisablingRemovesTheRecord(db: Tables, subj: Subject)
    ensures var d := DeleteTwoFA(db, subj); RecordOf(d, subj) == None && OnlyRecordChanges(db, d, subj)
  {
  }
}
