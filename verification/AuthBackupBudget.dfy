/** The budget of backup codes over whole runs: between two enrolments, what is left is what was issued
    minus what was spent, and no code is accepted twice. */
module AuthBackupBudget {
  import opened Domain
  import opened AccessTokens
  import opened Sequences
  import opened Strings
  import opened Store
  import opened Flows
  import opened AuthRuns
  import opened AuthSecondFactor

  // ---- Removing from a list ----

  /** The elements of `xs` that are not in `gone`, in order. */
  function Kept<T(==)>(xs: seq<T>, gone: seq<T>, n: nat): seq<T>
    requires n <= |xs|
  {
    if n == 0 then [] else
      var rest := Kept(xs, gone, n - 1);
      if xs[n - 1] in gone then rest else rest + [xs[n - 1]]
  }

  lemma {:induction false} WithoutOfPrefix<T>(xs: seq<T>, y: T, x: T, n: nat)
    requires n <= |xs|
    ensures Without(xs + [y], x, n) == Without(xs, x, n)
  {
    if n > 0 {
      WithoutOfPrefix(xs, y, x, n - 1);
    }
  }

  lemma WithoutLast<T>(xs: seq<T>, y: T, x: T)
    ensures Without(xs + [y], x, |xs| + 1) ==
            if y == x then Without(xs, x, |xs|) else Without(xs, x, |xs|) + [y]
  {
    WithoutOfPrefix(xs, y, x, |xs|);
  }

  /** Taking one more element away. */
  lemma {:induction false} KeptWithout<T>(xs: seq<T>, gone: seq<T>, x: T, n: nat)
    requires n <= |xs|
    ensures Kept(xs, gone + [x], n) == Without(Kept(xs, gone, n), x, |Kept(xs, gone, n)|)
  {
    if n > 0 {
      KeptWithout(xs, gone, x, n - 1);
      WithoutLast(Kept(xs, gone, n - 1), xs[n - 1], x);
    }
  }

  lemma {:induction false} KeptAll<T>(xs: seq<T>, n: nat)
    requires n <= |xs|
    ensures Kept(xs, [], n) == xs[..n]
  {
    if n > 0 {
      KeptAll(xs, n - 1);
      assert xs[..n] == xs[..n - 1] + [xs[n - 1]];
    }
  }

  lemma {:induction false} KeptHas<T>(xs: seq<T>, gone: seq<T>, n: nat, x: T)
    requires n <= |xs| && x in Kept(xs, gone, n)
    ensures x !in gone && exists i :: 0 <= i < n && xs[i] == x
  {
    if xs[n - 1] in gone || x in Kept(xs, gone, n - 1) {
      KeptHas(xs, gone, n - 1, x);
    }
  }

  lemma {:induction false} KeptIsDistinct<T>(xs: seq<T>, gone: seq<T>, n: nat)
    requires n <= |xs| && Distinct(xs)
    ensures Distinct(Kept(xs, gone, n))
  {
    if n > 0 {
      KeptIsDistinct(xs, gone, n - 1);
      if xs[n - 1] in Kept(xs, gone, n - 1) {
        KeptHas(xs, gone, n - 1, xs[n - 1]);
      }
    }
  }

  /** Taking away an element that is there shortens the list, by one when the list has no repetition. */
  lemma {:induction false} WithoutShortens<T>(xs: seq<T>, x: T, n: nat)
    requires n <= |xs|
    ensures |Without(xs, x, n)| <= n
    ensures (exists i :: 0 <= i < n && xs[i] == x) ==> |Without(xs, x, n)| < n
    ensures !(exists i :: 0 <= i < n && xs[i] == x) ==> |Without(xs, x, n)| == n
    ensures Distinct(xs) ==> |Without(xs, x, n)| >= n - 1
  {
    if n > 0 {
      WithoutShortens(xs, x, n - 1);
    }
  }

  // ---- Codes spent along a run ----

  /** The step verifies a code of `subj` through the backup branch. */
  predicate UsesBackup(cfg: TokenConfig, db: Tables, op: Op, subj: Subject) {
    Verifies(cfg, db, op, subj) && !IsTOTPShape(NormalCode(AttemptOf(cfg, op).value.code))
  }

  /** The code, trimmed and in upper case, that the step accepts as a backup code. */
  function BackupCodeAt(cfg: TokenConfig, db: Tables, op: Op, subj: Subject): Option<string> {
    if UsesBackup(cfg, db, op, subj) then Some(NormalCode(AttemptOf(cfg, op).value.code)) else None
  }

  /** The stored hash that the step consumes. */
  function SpentAt(cfg: TokenConfig, db: Tables, op: Op, subj: Subject): Option<PasswordHash> {
    if Verifies(cfg, db, op, subj) && GetTwoFA(db, subj).Some?
    then SpentBy(GetTwoFA(db, subj).value, AttemptOf(cfg, op).value.code) else None
  }

  /** A verification through the backup branch spends one stored hash, made from the code that was typed. */
  lemma BackupSpends(cfg: TokenConfig, db: Tables, op: Op, subj: Subject)
    ensures UsesBackup(cfg, db, op, subj) <==> SpentAt(cfg, db, op, subj).Some?
    ensures UsesBackup(cfg, db, op, subj) ==>
              && GetTwoFA(db, subj).Some?
              && SpentAt(cfg, db, op, subj).value in GetTwoFA(db, subj).value.backupCodesHash
              && SpentAt(cfg, db, op, subj).value.secret == NormalCode(AttemptOf(cfg, op).value.code)
  {
    RecordStep(cfg, db, op, subj);
    if Verifies(cfg, db, op, subj) {
      SameRecordSameGet(db, AttemptOf(cfg, op).value.subj, subj);
    }
  }

  /** The hashes spent in the steps from `from` on, before step `n`. */
  function SpentList(cfg: TokenConfig, r: Run, from: nat, n: nat, subj: Subject): seq<PasswordHash>
    requires n <= |r.ops|
  {
    if n <= from then [] else
      var rest := SpentList(cfg, r, from, n - 1, subj);
      var spent := SpentAt(cfg, r.db(n - 1), r.ops[n - 1], subj);
      if spent.Some? then rest + [spent.value] else rest
  }

  /** Uses and hashes left are together at most the hashes issued, and exactly as many when these are distinct. */
  predicate WithinBudget(rec: Option<TwoFA>, issued: seq<PasswordHash>, uses: nat) {
    && rec.Some?
    && uses + |rec.value.backupCodesHash| <= |issued|
    && (Distinct(issued) ==> uses + |rec.value.backupCodesHash| == |issued|)
  }

  /** The record that an enrolment with these hashes left, after these were spent. */
  predicate AccountsFor(rec: Option<TwoFA>, issued: seq<PasswordHash>, spent: seq<PasswordHash>) {
    && WithinBudget(rec, issued, |spent|)
    && rec.value.backupCodesHash == Kept(issued, spent, |issued|)
  }

  lemma SpendOne(rec: TwoFA, issued: seq<PasswordHash>, spent: seq<PasswordHash>, hash: PasswordHash)
    requires AccountsFor(Some(rec), issued, spent) && hash in rec.backupCodesHash
    ensures AccountsFor(Some(rec.(backupCodesHash := Without(rec.backupCodesHash, hash, |rec.backupCodesHash|))),
                        issued, spent + [hash])
  {
    KeptWithout(issued, spent, hash, |issued|);
    WithoutShortens(rec.backupCodesHash, hash, |rec.backupCodesHash|);
    if Distinct(issued) {
      KeptIsDistinct(issued, spent, |issued|);
    }
  }

  lemma SpendStep(cfg: TokenConfig, db: Tables, op: Op, subj: Subject, issued: seq<PasswordHash>,
                  spent: seq<PasswordHash>)
    requires AccountsFor(GetTwoFA(db, subj), issued, spent) && !Clears(db, op, subj)
    ensures var now := SpentAt(cfg, db, op, subj);
            AccountsFor(GetTwoFA(Perform(cfg, db, op).0, subj), issued,
                        if now.Some? then spent + [now.value] else spent)
  {
    RecordStep(cfg, db, op, subj);
    BackupSpends(cfg, db, op, subj);
    var now := SpentAt(cfg, db, op, subj);
    if now.Some? {
      SpendOne(GetTwoFA(db, subj).value, issued, spent, now.value);
    }
  }

  /** Conservation of backup codes: as long as a record is not cleared after an enrolment, the hashes left
      are the issued ones, in order, minus those spent by successful backup verifications; there are never
      more such verifications than codes, and with distinct hashes each costs exactly one. */
  lemma {:induction false} CodesAreConserved(cfg: TokenConfig, r: Run, e: nat, n: nat, subj: Subject)
    requires IsRun(cfg, r) && e < n <= |r.ops| && Enrolls(r.db(e), r.ops[e], subj) && NoClear(r, e + 1, n, subj)
    ensures AccountsFor(GetTwoFA(r.db(n), subj), Hashes(r.ops[e].issue), SpentList(cfg, r, e + 1, n, subj))
  {
    assert StepOk(cfg, r, n - 1);
    if n == e + 1 {
      RecordStep(cfg, r.db(e), r.ops[e], subj);
      KeptAll(Hashes(r.ops[e].issue), |r.ops[e].issue|);
    } else {
      CodesAreConserved(cfg, r, e, n - 1, subj);
      SpendStep(cfg, r.db(n - 1), r.ops[n - 1], subj, Hashes(r.ops[e].issue), SpentList(cfg, r, e + 1, n - 1, subj));
    }
  }

  /** How many steps verified a code of `subj` through the backup branch. */
  function BackupUses(cfg: TokenConfig, r: Run, from: nat, n: nat, subj: Subject): nat
    requires n <= |r.ops|
  {
    if n <= from then 0 else
      BackupUses(cfg, r, from, n - 1, subj) + if UsesBackup(cfg, r.db(n - 1), r.ops[n - 1], subj) then 1 else 0
  }

  /** Each of them spent one stored hash. */
  lemma {:induction false} UsesAreSpent(cfg: TokenConfig, r: Run, from: nat, n: nat, subj: Subject)
    requires n <= |r.ops|
    ensures BackupUses(cfg, r, from, n, subj) == |SpentList(cfg, r, from, n, subj)|
  {
    if n > from {
      UsesAreSpent(cfg, r, from, n - 1, subj);
      BackupSpends(cfg, r.db(n - 1), r.ops[n - 1], subj);
    }
  }

  lemma CountedBudget(rec: Option<TwoFA>, issued: seq<PasswordHash>, spent: seq<PasswordHash>, uses: nat)
    ensures AccountsFor(rec, issued, spent) && uses == |spent| ==> WithinBudget(rec, issued, uses)
  {
  }

  /** The budget, counted in verifications: those that succeeded through the backup branch since an
      enrolment, and the hashes left, are together at most the codes it issued. */
  lemma BackupBudget(cfg: TokenConfig, r: Run, e: nat, n: nat, subj: Subject, uses: nat)
    requires IsRun(cfg, r) && e < n <= |r.ops| && Enrolls(r.db(e), r.ops[e], subj) && NoClear(r, e + 1, n, subj)
    requires uses == BackupUses(cfg, r, e + 1, n, subj)
    ensures WithinBudget(GetTwoFA(r.db(n), subj), Hashes(r.ops[e].issue), uses)
  {
    CodesAreConserved(cfg, r, e, n, subj);
    UsesAreSpent(cfg, r, e + 1, n, subj);
    CountedBudget(GetTwoFA(r.db(n), subj), Hashes(r.ops[e].issue), SpentList(cfg, r, e + 1, n, subj), uses);
  }

  lemma SpentNow(cfg: TokenConfig, r: Run, from: nat, k: nat, subj: Subject)
    requires from <= k < |r.ops| && SpentAt(cfg, r.db(k), r.ops[k], subj).Some?
    ensures SpentAt(cfg, r.db(k), r.ops[k], subj).value in SpentList(cfg, r, from, k + 1, subj)
  {
  }

  lemma {:induction false} SpentStays(cfg: TokenConfig, r: Run, from: nat, n: nat, m: nat, subj: Subject,
                                      hash: PasswordHash)
    requires from <= n <= m <= |r.ops| && hash in SpentList(cfg, r, from, n, subj)
    ensures hash in SpentList(cfg, r, from, m, subj)
    decreases m
  {
    if n < m {
      SpentStays(cfg, r, from, n, m - 1, subj, hash);
    }
  }

  /** What an earlier step spent is not what was not spent before. */
  lemma SpentTwice(cfg: TokenConfig, r: Run, from: nat, k: nat, m: nat, subj: Subject, a: PasswordHash, b: PasswordHash)
    requires from <= k < m < |r.ops|
    ensures SpentAt(cfg, r.db(k), r.ops[k], subj) == Some(a) && b !in SpentList(cfg, r, from, m, subj) ==> a != b
  {
    if SpentAt(cfg, r.db(k), r.ops[k], subj) == Some(a) {
      SpentNow(cfg, r, from, k, subj);
      SpentStays(cfg, r, from, k + 1, m, subj, a);
    }
  }

  /** The hash was made from the issued code number `i`, which reads `code`. */
  predicate HashOf(issue: seq<Code>, i: nat, hash: PasswordHash, code: string) {
    i < |issue| && issue[i].text == code && hash == Bcrypt(issue[i].salt, code)
  }

  /** Step `k` spent `hash`, that of the issued code number `i`, which reads `code`, and not spent before. */
  predicate SpentFrom(cfg: TokenConfig, r: Run, e: nat, k: nat, subj: Subject, i: nat, hash: PasswordHash, code: string)
    requires e < k < |r.ops| && r.ops[e].Enroll?
  {
    && HashOf(r.ops[e].issue, i, hash, code)
    && SpentAt(cfg, r.db(k), r.ops[k], subj) == Some(hash)
    && hash !in SpentList(cfg, r, e + 1, k, subj)
  }

  /** A spent hash is that of an issued code, the one typed, and was not spent before. */
  lemma SpentWasIssued(cfg: TokenConfig, r: Run, e: nat, k: nat, subj: Subject,
                       code: string) returns (i: nat, hash: PasswordHash)
    requires IsRun(cfg, r) && e < k < |r.ops| && Enrolls(r.db(e), r.ops[e], subj) && NoClear(r, e + 1, k, subj)
    requires BackupCodeAt(cfg, r.db(k), r.ops[k], subj) == Some(code)
    ensures SpentFrom(cfg, r, e, k, subj, i, hash, code)
  {
    var issued := Hashes(r.ops[e].issue);
    BackupSpends(cfg, r.db(k), r.ops[k], subj);
    CodesAreConserved(cfg, r, e, k, subj);
    hash := SpentAt(cfg, r.db(k), r.ops[k], subj).value;
    KeptHas(issued, SpentList(cfg, r, e + 1, k, subj), |issued|, hash);
    i :| 0 <= i < |issued| && issued[i] == hash;
  }

  lemma DistinctCodes(issue: seq<Code>, i: nat, j: nat, a: PasswordHash, b: PasswordHash, first: string, second: string)
    requires Distinct(Texts(issue)) && HashOf(issue, i, a, first) && HashOf(issue, j, b, second) && a != b
    ensures first != second
  {
    assert Texts(issue)[i] == first && Texts(issue)[j] == second;
  }

  lemma SpentDiffer(cfg: TokenConfig, r: Run, e: nat, k: nat, m: nat, subj: Subject,
                    i: nat, a: PasswordHash, first: string, j: nat, b: PasswordHash, second: string)
    requires e < k < m < |r.ops| && r.ops[e].Enroll? && Distinct(Texts(r.ops[e].issue))
    ensures SpentFrom(cfg, r, e, k, subj, i, a, first) && SpentFrom(cfg, r, e, m, subj, j, b, second) ==>
              first != second
  {
    if SpentFrom(cfg, r, e, k, subj, i, a, first) && SpentFrom(cfg, r, e, m, subj, j, b, second) {
      SpentTwice(cfg, r, e + 1, k, m, subj, a, b);
      DistinctCodes(r.ops[e].issue, i, j, a, b, first, second);
    }
  }

  lemma NoClearPrefix(r: Run, from: nat, k: nat, n: nat, subj: Subject)
    requires k <= n <= |r.ops| && NoClear(r, from, n, subj)
    ensures NoClear(r, from, k, subj)
  {
  }

  /** With distinct codes issued, the codes accepted at two steps since the same enrolment differ. */
  lemma EachCodeWorksOnce(cfg: TokenConfig, r: Run, e: nat, k: nat, m: nat, subj: Subject, first: string,
                          second: string)
    requires IsRun(cfg, r) && e < k < m < |r.ops| && Enrolls(r.db(e), r.ops[e], subj) && NoClear(r, e + 1, m, subj)
    requires Distinct(Texts(r.ops[e].issue))
    requires BackupCodeAt(cfg, r.db(k), r.ops[k], subj) == Some(first)
    requires BackupCodeAt(cfg, r.db(m), r.ops[m], subj) == Some(second)
    ensures first != second
  {
    NoClearPrefix(r, e + 1, k, m, subj);
    var i, a := SpentWasIssued(cfg, r, e, k, subj, first);
    var j, b := SpentWasIssued(cfg, r, e, m, subj, second);
    SpentDiffer(cfg, r, e, k, m, subj, i, a, first, j, b, second);
  }
}
