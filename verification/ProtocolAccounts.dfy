/** What password resets do to the tables of accounts, in any interleaving. */
module ProtocolAccounts {
  import opened Domain
  import opened AccessTokens
  import opened Store
  import opened Flows
  import opened Protocol
  import opened ProtocolInvariants
  import opened ProtocolSteps
  import opened ProtocolTheorems
  import opened ProtocolRows
  import R = ResetPromises

  predicate SameAccounts(s: State, t: State) {
    t.db.users == s.db.users && t.db.admins == s.db.admins
  }

  /** Exactly the rows of one account got a new hash. */
  ghost predicate OnlyRehashed(s: State, t: State, subj: Subject, hash: PasswordHash) {
    if subj.kind == KindUser
    then R.OnlyUserRehashed(s.db.users, t.db.users, subj.userId, hash) && t.db.admins == s.db.admins
    else R.OnlyAdminRehashed(s.db.admins, t.db.admins, subj.adminId, hash) && t.db.users == s.db.users
  }

  /** Call `c` flipped a record itself, no write has gone through that record before, and now the account
      that the record was requested for, and no other, has the call's hash. */
  ghost predicate WritesByRecord(s: State, t: State, c: nat) {
    && c in s.calls && s.calls[c].ResetMarked?
    && var call := s.calls[c];
    && call.reset < |s.resetInfo| && s.resetInfo[call.reset].markedBy == Some(c)
    && (forall w :: 0 <= w < |s.writes| ==> s.writes[w].reset != call.reset && s.writes[w].writer != c)
    && OnlyRehashed(s, t, s.resetInfo[call.reset].requestedFor, call.hash)
    && t.writes == s.writes + [PasswordWrite(c, call.reset, s.resetInfo[call.reset].requestedFor, call.hash)]
  }

  lemma OthersKeepAccounts(cfg: TokenConfig, s: State, c: nat, call: Call, ids: MintIds, salt: nat, now: Time)
    requires !call.ResetMarked?
    ensures var t := Step(cfg, s, c, call, ids, salt, now); SameAccounts(s, t) && t.writes == s.writes
  {
  }

  lemma MarkedWrites(s: State, t: State, c: nat, r: nat, rec: PasswordReset, hash: PasswordHash, salt: nat, now: Time)
    requires Inv(s) && c in s.calls && s.calls[c] == ResetMarked(r, rec, hash)
    requires t == ResetStep(s, c, s.calls[c], salt, now)
    ensures (SameAccounts(s, t) && t.writes == s.writes) || WritesByRecord(s, t, c)
  {
    assert CallOk(s, c, s.calls[c]);
    R.WritingReachesTheAccount(s.db, rec, hash);
    if SetPassword(s.db, rec.Owner(), hash).Ok? {
      forall w | 0 <= w < |s.writes|
        ensures s.writes[w].reset != r
      {
        assert WriteOk(s, s.writes[w]);
      }
    }
  }

  /** In any reachable state, and whatever call takes the step, the tables of accounts change only when a
      reset that flipped its own record writes; it reaches exactly the account named when the reset was
      requested, and it is the first write that goes through the record. */
  lemma PasswordsChangeByReset(cfg: TokenConfig, s: State, es: seq<Event>, e: Event)
    requires FromInit(cfg, s, es) && Enabled(End(cfg, s, es), e) && !e.action.Elsewhere?
    ensures var here, after := End(cfg, s, es), Next(cfg, End(cfg, s, es), e);
            || (SameAccounts(here, after) && after.writes == here.writes)
            || (e.action.Advance? && WritesByRecord(here, after, e.action.c))
  {
    Reachable(cfg, s, es);
    EventWrites(cfg, End(cfg, s, es), e);
  }

  lemma AdvanceWrites(cfg: TokenConfig, s: State, c: nat, ids: MintIds, salt: nat, now: Time)
    requires Inv(s) && c in s.calls
    ensures var t := Step(cfg, s, c, s.calls[c], ids, salt, now);
            (SameAccounts(s, t) && t.writes == s.writes) || WritesByRecord(s, t, c)
  {
    var call := s.calls[c];
    if call.ResetMarked? {
      MarkedWrites(s, Step(cfg, s, c, call, ids, salt, now), c, call.reset, call.rec, call.hash, salt, now);
    } else {
      OthersKeepAccounts(cfg, s, c, call, ids, salt, now);
    }
  }

  lemma OutsideWrites(cfg: TokenConfig, s: State, e: Event)
    requires !e.action.Elsewhere? && !e.action.Advance?
    ensures var t := Next(cfg, s, e); SameAccounts(s, t) && t.writes == s.writes
  {
  }

  lemma EventWrites(cfg: TokenConfig, s: State, e: Event)
    requires Inv(s) && Enabled(s, e) && !e.action.Elsewhere?
    ensures var t := Next(cfg, s, e);
            || (SameAccounts(s, t) && t.writes == s.writes)
            || (e.action.Advance? && WritesByRecord(s, t, e.action.c))
  {
    if e.action.Advance? {
      ClockKeeps(s, e.now);
      AdvanceWrites(cfg, s.(clock := e.now), e.action.c, e.action.ids, e.action.salt, e.now);
    } else {
      OutsideWrites(cfg, s, e);
    }
  }

  // ---- Along a run ----

  /** The hash that the writes from `m` on, before `n`, leave to an account that had `hash`. */
  ghost function HashAfter(hash: PasswordHash, writes: seq<PasswordWrite>, m: nat, n: nat, subj: Subject): PasswordHash
    requires n <= |writes|
  {
    if n <= m then hash
    else if writes[n - 1].subj == subj then writes[n - 1].hash
    else HashAfter(hash, writes, m, n - 1, subj)
  }

  lemma {:induction false} HashAfterPrefix(hash: PasswordHash, writes: seq<PasswordWrite>, w: PasswordWrite, m: nat,
                                           n: nat, subj: Subject)
    requires n <= |writes|
    ensures HashAfter(hash, writes + [w], m, n, subj) == HashAfter(hash, writes, m, n, subj)
  {
    if n > m {
      HashAfterPrefix(hash, writes, w, m, n - 1, subj);
    }
  }

  function UserAfter(u: User, hash: PasswordHash): User {
    if u.deletedAt.Some? then u else u.(passwordHash := hash)
  }

  /** The rows of `now` are those of `was`, with the hashes that the writes since position `m` left. */
  ghost predicate FollowsWrites(was: Tables, now: Tables, writes: seq<PasswordWrite>, m: nat) {
    && |now.users| == |was.users| && |now.admins| == |was.admins|
    && (forall i :: 0 <= i < |was.users| ==>
          now.users[i] == UserAfter(was.users[i], HashAfter(was.users[i].passwordHash, writes, m, |writes|,
                                                           UserSubject(was.users[i].id))))
    && forall i :: 0 <= i < |was.admins| ==>
         now.admins[i] == was.admins[i].(passwordHash := HashAfter(was.admins[i].passwordHash, writes, m, |writes|,
                                                                   AdminSubject(was.admins[i].id)))
  }

  lemma OneMoreWrite(was: Tables, s: State, t: State, c: nat, m: nat)
    requires FollowsWrites(was, s.db, s.writes, m) && m <= |s.writes| && WritesByRecord(s, t, c) && ResetsOk(s)
    ensures FollowsWrites(was, t.db, t.writes, m)
  {
    var r := s.calls[c].reset;
    var w := t.writes[|s.writes|];
    assert ResetOk(s.db.resets[r], s.resetInfo[r]);
    forall i | 0 <= i < |was.users|
      ensures t.db.users[i] == UserAfter(was.users[i], HashAfter(was.users[i].passwordHash, t.writes, m, |t.writes|,
                                                                UserSubject(was.users[i].id)))
    {
      HashAfterPrefix(was.users[i].passwordHash, s.writes, w, m, |s.writes|, UserSubject(was.users[i].id));
    }
    forall i | 0 <= i < |was.admins|
      ensures t.db.admins[i] == was.admins[i].(passwordHash := HashAfter(was.admins[i].passwordHash, t.writes, m,
                                                                         |t.writes|, AdminSubject(was.admins[i].id)))
    {
      HashAfterPrefix(was.admins[i].passwordHash, s.writes, w, m, |s.writes|, AdminSubject(was.admins[i].id));
    }
  }

  lemma FollowsNext(cfg: TokenConfig, was: Tables, t: State, e: Event, u: State, m: nat)
    requires Inv(t) && Enabled(t, e) && !e.action.Elsewhere? && u == Next(cfg, t, e)
    requires m <= |t.writes| && FollowsWrites(was, t.db, t.writes, m)
    ensures m <= |u.writes| && FollowsWrites(was, u.db, u.writes, m)
  {
    EventWrites(cfg, t, e);
    if u.writes != t.writes {
      OneMoreWrite(was, t, u, e.action.c, m);
    }
  }

  /** Nothing but resets changes an account: as long as the rest of the system leaves the accounts alone,
      each account is what it was, with the hash of the last write for it, if any. */
  lemma {:induction false} AccountsFollowWrites(cfg: TokenConfig, s: State, es: seq<Event>, n: nat)
    requires n <= |es| && Inv(s) && ValidRun(cfg, s, es, n) && forall k :: 0 <= k < n ==> !es[k].action.Elsewhere?
    ensures |s.writes| <= |StateAt(cfg, s, es, n).writes|
    ensures FollowsWrites(s.db, StateAt(cfg, s, es, n).db, StateAt(cfg, s, es, n).writes, |s.writes|)
  {
    if n > 0 {
      AccountsFollowWrites(cfg, s, es, n - 1);
      RunKeeps(cfg, s, es, n - 1);
      FollowsNext(cfg, s.db, StateAt(cfg, s, es, n - 1), es[n - 1], StateAt(cfg, s, es, n), |s.writes|);
    }
  }

  // ---- What a finished reset leaves ----

  /** Where a finished confirmation comes from: it was finished before, or this event is its revocation. */
  lemma LastStepOfReset(cfg: TokenConfig, s: State, e: Event, c: nat)
    requires Enabled(s, e) && c in Next(cfg, s, e).calls && Next(cfg, s, e).calls[c].ResetDone?
    ensures var call := Next(cfg, s, e).calls[c];
            || (c in s.calls && s.calls[c] == call)
            || (e.action.Advance? && e.action.c == c && c in s.calls
                && s.calls[c] == ResetWritten(call.reset, call.subj) && call.rows == |s.db.refresh|)
  {
    if e.action.Advance? && e.action.c != c {
      StepMovesOnly(cfg, s.(clock := e.now), e.action.c, s.calls[e.action.c], e.action.ids, e.action.salt, e.now, c);
    }
  }

  lemma {:induction false} LastStepAt(cfg: TokenConfig, s: State, es: seq<Event>, n: nat, c: nat) returns (k: nat)
    requires Init(s) && n <= |es| && ValidRun(cfg, s, es, n)
    requires c in StateAt(cfg, s, es, n).calls && StateAt(cfg, s, es, n).calls[c].ResetDone?
    ensures var call := StateAt(cfg, s, es, n).calls[c];
            && k < n && es[k].action.Advance? && es[k].action.c == c && c in StateAt(cfg, s, es, k).calls
            && StateAt(cfg, s, es, k).calls[c] == ResetWritten(call.reset, call.subj)
            && call.rows == |StateAt(cfg, s, es, k).db.refresh|
    decreases n
  {
    k := n - 1;
    var t := StateAt(cfg, s, es, k);
    LastStepOfReset(cfg, t, es[k], c);
    if c in t.calls && t.calls[c] == StateAt(cfg, s, es, n).calls[c] {
      k := LastStepAt(cfg, s, es, k, c);
    }
  }

  /** A confirmation that returned without error has written the password of its subject; every refresh row
      that the subject had when its last statement ran was revoked by then, and is at every later time. */
  lemma FinishedResetEndsSessions(cfg: TokenConfig, s: State, es: seq<Event>, c: nat) returns (k: nat)
    requires FromInit(cfg, s, es)
    requires var t := End(cfg, s, es); c in t.calls && t.calls[c].ResetDone?
    ensures k < |es| && es[k].action.Advance? && es[k].action.c == c
    ensures var here, t := StateAt(cfg, s, es, k), End(cfg, s, es);
            && c in here.calls && here.calls[c] == ResetWritten(t.calls[c].reset, t.calls[c].subj)
            && WroteFor(t, c, t.calls[c].reset, t.calls[c].subj)
            && RevokedBelow(t, t.calls[c].subj, |here.db.refresh|)
  {
    FinishedResetLoggedOut(cfg, s, es, c);
    k := LastStepAt(cfg, s, es, |es|, c);
  }
}
