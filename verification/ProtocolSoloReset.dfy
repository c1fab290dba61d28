/** An uninterrupted reset confirmation of the step protocol is the confirmation of the service. */
module ProtocolSoloReset {
  import opened Domain
  import opened AccessTokens
  import opened Store
  import opened Flows
  import opened Protocol
  import opened ProtocolInvariants

  function ResetOutcome(call: Call): Result<()> {
    if call.ResetDone? then Ok(()) else if call.Failed? then Err(call.error) else Err(Internal)
  }

  /** A start and five steps of call `c`. */
  ghost predicate AloneReset(es: seq<Event>, c: nat, token: Padded, password: string, salt: nat, ids: MintIds) {
    && |es| == 6 && es[0].action == StartReset(c, token, password)
    && forall k :: 1 <= k < 6 ==> es[k].action == Advance(c, ids, salt)
  }

  predicate Blank(token: Padded, password: string) {
    TrimText(token) == Empty || password == ""
  }

  ghost function At(s: State, c: nat, call: Call, now: Time): State {
    WithCall(s.(clock := now), c, call)
  }

  lemma FailureStays(cfg: TokenConfig, s: State, es: seq<Event>, c: nat, token: Padded, password: string, salt: nat,
                     ids: MintIds, k: nat)
    requires AloneReset(es, c, token, password, salt, ids) && 1 <= k <= 6
    requires c in StateAt(cfg, s, es, k).calls && StateAt(cfg, s, es, k).calls[c].Failed?
    ensures StateAt(cfg, s, es, 6).db == StateAt(cfg, s, es, k).db
    ensures c in StateAt(cfg, s, es, 6).calls && StateAt(cfg, s, es, 6).calls[c] == StateAt(cfg, s, es, k).calls[c]
    decreases 6 - k
  {
    if k < 6 {
      FailedStep(cfg, StateAt(cfg, s, es, k), es[k]);
      assert StateAt(cfg, s, es, k + 1) == Next(cfg, StateAt(cfg, s, es, k), es[k]);
      FailureStays(cfg, s, es, c, token, password, salt, ids, k + 1);
    }
  }

  lemma StartedState(cfg: TokenConfig, s: State, es: seq<Event>, c: nat, token: Padded, password: string, salt: nat,
                     ids: MintIds)
    requires AloneReset(es, c, token, password, salt, ids)
    ensures StateAt(cfg, s, es, 1) == At(s, c, ResetStart(token, password), es[0].now)
  {
    assert StateAt(cfg, s, es, 1) == Next(cfg, StateAt(cfg, s, es, 0), es[0]);
  }

  lemma ReadState(cfg: TokenConfig, s: State, es: seq<Event>, c: nat, token: Padded, password: string, salt: nat,
                  ids: MintIds)
    requires AloneReset(es, c, token, password, salt, ids)
    ensures var at := FindReset(s.db.resets, Sha256(TrimText(token)));
            StateAt(cfg, s, es, 2) ==
            At(s, c,
               if Blank(token, password) then Failed(InvalidInput, None)
               else if at.None? then Failed(Unauthorized, None)
               else ResetRead(at.value, s.db.resets[at.value], password),
               es[1].now)
  {
    StartedState(cfg, s, es, c, token, password, salt, ids);
    assert StateAt(cfg, s, es, 2) == Next(cfg, StateAt(cfg, s, es, 1), es[1]);
  }

  /** Where the expiry test and the new hash send a confirmation. */
  function CheckedCall(i: nat, rec: PasswordReset, password: string, salt: nat, now: Time): Call {
    var hash := HashPassword(password, salt);
    if !ResetUsable(rec, now) then Failed(Unauthorized, None)
    else if hash.Err? then Failed(hash.error, None)
    else ResetChecked(i, rec, hash.value)
  }

  lemma CheckStep(cfg: TokenConfig, t: State, e: Event, c: nat, i: nat, rec: PasswordReset, password: string, salt: nat,
                  ids: MintIds)
    requires e.action == Advance(c, ids, salt) && c in t.calls && t.calls[c] == ResetRead(i, rec, password)
    ensures Next(cfg, t, e) == At(t, c, CheckedCall(i, rec, password, salt, e.now), e.now)
  {
  }

  lemma FailedStep(cfg: TokenConfig, t: State, e: Event)
    requires e.action.Advance? && e.action.c in t.calls && t.calls[e.action.c].Failed?
    ensures Next(cfg, t, e) == t.(clock := e.now)
  {
  }

  /** Start, read, check. */
  lemma CheckedState(cfg: TokenConfig, s: State, es: seq<Event>, c: nat, token: Padded, password: string, salt: nat,
                     ids: MintIds)
    requires AloneReset(es, c, token, password, salt, ids)
    ensures var at := FindReset(s.db.resets, Sha256(TrimText(token)));
            StateAt(cfg, s, es, 3) ==
            At(s, c,
               if Blank(token, password) then Failed(InvalidInput, None)
               else if at.None? then Failed(Unauthorized, None)
               else CheckedCall(at.value, s.db.resets[at.value], password, salt, es[2].now),
               es[2].now)
  {
    ReadState(cfg, s, es, c, token, password, salt, ids);
    var t := StateAt(cfg, s, es, 2);
    assert StateAt(cfg, s, es, 3) == Next(cfg, t, es[2]);
    if t.calls[c].Failed? {
      FailedStep(cfg, t, es[2]);
    } else {
      CheckStep(cfg, t, es[2], c, t.calls[c].reset, t.calls[c].rec, password, salt, ids);
    }
  }

  lemma UnusedIsMarked(rows: seq<PasswordReset>, i: nat)
    requires i < |rows| && rows[i].usedAt.None?
    ensures MarkAffects(rows, rows[i].id)
  {
    assert Unused(rows[i], rows[i].id);
  }

  lemma MarkedState(cfg: TokenConfig, s: State, es: seq<Event>, c: nat, token: Padded, password: string, salt: nat,
                    ids: MintIds,
                    i: nat, hash: PasswordHash)
    requires AloneReset(es, c, token, password, salt, ids) && i < |s.db.resets| == |s.resetInfo|
    requires s.db.resets[i].usedAt.None?
    requires StateAt(cfg, s, es, 3) == At(s, c, ResetChecked(i, s.db.resets[i], hash), es[2].now)
    ensures var rec, t := s.db.resets[i], StateAt(cfg, s, es, 4);
            && t.db == s.db.(resets := MarkUsed(s.db.resets, rec.id, es[3].now))
            && c in t.calls && t.calls[c] == ResetMarked(i, rec, hash)
  {
    UnusedIsMarked(s.db.resets, i);
    assert StateAt(cfg, s, es, 4) == Next(cfg, StateAt(cfg, s, es, 3), es[3]);
  }

  lemma WrittenState(cfg: TokenConfig, s: State, es: seq<Event>, c: nat, token: Padded, password: string, salt: nat,
                     ids: MintIds,
                     i: nat, rec: PasswordReset, hash: PasswordHash)
    requires AloneReset(es, c, token, password, salt, ids)
    requires c in StateAt(cfg, s, es, 4).calls && StateAt(cfg, s, es, 4).calls[c] == ResetMarked(i, rec, hash)
    ensures var marked, t := StateAt(cfg, s, es, 4).db, StateAt(cfg, s, es, 5);
            var written := SetPassword(marked, rec.Owner(), hash);
            && c in t.calls
            && (written.Err? ==> t.db == marked && t.calls[c] == Failed(written.error, None))
            && (written.Ok? ==> t.db == written.value && t.calls[c] == ResetWritten(i, rec.Owner()))
  {
    assert StateAt(cfg, s, es, 5) == Next(cfg, StateAt(cfg, s, es, 4), es[4]);
  }

  lemma LogoutStepOf(cfg: TokenConfig, t: State, e: Event, c: nat, i: nat, subj: Subject, salt: nat, ids: MintIds)
    requires e.action == Advance(c, ids, salt) && c in t.calls && t.calls[c] == ResetWritten(i, subj)
    ensures var u := Next(cfg, t, e);
            && u.db == t.db.(refresh := RevokeBySubject(t.db.refresh, subj, e.now))
            && c in u.calls && u.calls[c] == ResetDone(i, subj, |t.db.refresh|)
  {
  }

  /** Write, revoke. */
  lemma LoggedOutState(cfg: TokenConfig, s: State, es: seq<Event>, c: nat, token: Padded, password: string, salt: nat,
                       ids: MintIds,
                       i: nat, rec: PasswordReset, hash: PasswordHash)
    requires AloneReset(es, c, token, password, salt, ids)
    requires c in StateAt(cfg, s, es, 4).calls && StateAt(cfg, s, es, 4).calls[c] == ResetMarked(i, rec, hash)
    ensures var marked := StateAt(cfg, s, es, 4).db;
            var written := SetPassword(marked, rec.Owner(), hash);
            var t := StateAt(cfg, s, es, 6);
            && c in t.calls
            && ResetOutcome(t.calls[c]) == (if written.Err? then Err(written.error) else Ok(()))
            && t.db == if written.Err? then marked
                       else written.value.(refresh := RevokeBySubject(written.value.refresh, rec.Owner(), es[5].now))
  {
    WrittenState(cfg, s, es, c, token, password, salt, ids, i, rec, hash);
    var t := StateAt(cfg, s, es, 5);
    assert StateAt(cfg, s, es, 6) == Next(cfg, t, es[5]);
    if t.calls[c].Failed? {
      FailedStep(cfg, t, es[5]);
    } else {
      LogoutStepOf(cfg, t, es[5], c, i, rec.Owner(), salt, ids);
    }
  }

  /** A confirmation that runs without interference does to the tables, and returns, exactly what the
      sequential operation does at the clock readings of its steps. */
  lemma SoloResetIsConfirm(cfg: TokenConfig, s: State, es: seq<Event>, c: nat, token: Padded, password: string,
                           salt: nat, ids: MintIds)
    requires Inv(s) && AloneReset(es, c, token, password, salt, ids)
    ensures var (db, r) := ConfirmPasswordReset(s.db, token, password, salt, es[2].now, es[3].now, es[5].now);
            var t := StateAt(cfg, s, es, 6);
            t.db == db && c in t.calls && ResetOutcome(t.calls[c]) == r
  {
    CheckedState(cfg, s, es, c, token, password, salt, ids);
    var at, hash := FindReset(s.db.resets, Sha256(TrimText(token))), HashPassword(password, salt);
    if Blank(token, password) || at.None? || !ResetUsable(s.db.resets[at.value], es[2].now) || hash.Err? {
      FailureStays(cfg, s, es, c, token, password, salt, ids, 3);
    } else {
      UnusedIsMarked(s.db.resets, at.value);
      MarkedState(cfg, s, es, c, token, password, salt, ids, at.value, hash.value);
      LoggedOutState(cfg, s, es, c, token, password, salt, ids, at.value, s.db.resets[at.value], hash.value);
    }
  }
}
