/** Every event of the protocol keeps the invariant, and every run therefore satisfies it. */
module ProtocolSteps {
  import opened Domain
  import opened AccessTokens
  import opened Store
  import opened Flows
  import opened Protocol
  import opened ProtocolInvariants

  /** A change that leaves the resets alone, beside new calls. */
  lemma ResetsUntouched(s: State, s': State, c: int)
    requires ResetsOk(s) && s'.db.resets == s.db.resets && s'.resetInfo == s.resetInfo && s'.writes == s.writes
    requires s.calls.Keys <= s'.calls.Keys
    ensures ResetsOk(s') && ResetsGrow(s, s', c)
  {
    forall w | 0 <= w < |s'.writes|
      ensures WriteOk(s', s'.writes[w])
    {
      assert WriteOk(s, s.writes[w]);
    }
  }

  lemma RowsUntouched(s: State, s': State, c: int)
    requires RowsOk(s.db.refresh, s.info, s.presented)
    requires s'.db.refresh == s.db.refresh && s'.info == s.info
    ensures Grows(s.db.refresh, s.info, s'.db.refresh, s'.info, c)
  {
  }

  /** What is known of a call does not depend on where the other calls are. */
  lemma CallOkElsewhere(s: State, calls: map<nat, Call>, c: nat, call: Call)
    requires CallOk(s, c, call)
    ensures CallOk(s.(calls := calls), c, call)
  {
  }

  /** Moving one call to a new program point. */
  lemma MoveKeeps(s: State, c: nat, call: Call)
    requires Inv(s) && CallOk(s, c, call)
    ensures Inv(WithCall(s, c, call)) && StateGrows(s, WithCall(s, c, call), c)
  {
    var s' := WithCall(s, c, call);
    ResetsUntouched(s, s', c);
    RowsUntouched(s, s', c);
    CallOkElsewhere(s, s.calls[c := call], c, call);
    StepKeeps(s, s', c);
  }

  /** Changing the refresh rows and moving one call. */
  lemma RowStepKeeps(s: State, s1: State, c: nat, call: Call)
    requires Inv(s) && RowsOk(s1.db.refresh, s1.info, s1.presented)
    requires Grows(s.db.refresh, s.info, s1.db.refresh, s1.info, c)
    requires s1 == s.(db := s.db.(refresh := s1.db.refresh), info := s1.info)
    requires CallOk(WithCall(s1, c, call), c, call)
    ensures Inv(WithCall(s1, c, call)) && StateGrows(s, WithCall(s1, c, call), c)
  {
    ResetsUntouched(s, WithCall(s1, c, call), c);
    StepKeeps(s, WithCall(s1, c, call), c);
  }

  lemma RevokeOwnedKeeps(s: State, subj: Subject, now: Time, c: int)
    requires RowsOk(s.db.refresh, s.info, s.presented)
    ensures var s' := RevokeOwned(s, subj, now);
            RowsOk(s'.db.refresh, s'.info, s'.presented) && Grows(s.db.refresh, s.info, s'.db.refresh, s'.info, c)
  {
    RevokingKeeps(s.db.refresh, s.info, s.presented, RevokeBySubject(s.db.refresh, subj, now), c);
  }

  lemma NothingKeeps(s: State, c: int)
    requires Inv(s)
    ensures StateGrows(s, s, c)
  {
    RowsUntouched(s, s, c);
    ResetsUntouched(s, s, c);
  }

  // ---- Logins ----

  lemma LoginMintKeeps(cfg: TokenConfig, s: State, c: nat, ids: MintIds, now: Time)
    requires Inv(s) && c in s.calls && s.calls[c].LoginReady? && NewRaw(s, ids.raw)
    ensures var s' := LoginStep(cfg, s, c, s.calls[c], ids, now); Inv(s') && StateGrows(s, s', c)
  {
    var LoginReady(subj, claims) := s.calls[c];
    assert CallOk(s, c, s.calls[c]);
    if HasRefreshId(s.db.refresh, ids.rowId) {
      MoveKeeps(s, c, Failed(Internal, None));
    } else {
      var row, n := NewRow(cfg, subj, ids, now), RowInfo(c, |s.db.refresh|, true, false, None);
      InsertKeeps(s, row, n, c);
      RowStepKeeps(s, InsertRow(s, row, n), c, LoginMinted(|s.db.refresh|, NewSession(cfg, claims, ids, now)));
    }
  }

  lemma LoginStepKeeps(cfg: TokenConfig, s: State, c: nat, ids: MintIds, now: Time)
    requires Inv(s) && c in s.calls && IsLogin(s.calls[c])
    requires s.calls[c].LoginReady? ==> NewRaw(s, ids.raw)
    ensures var s' := LoginStep(cfg, s, c, s.calls[c], ids, now); Inv(s') && StateGrows(s, s', c)
  {
    match s.calls[c]
    case LoginReady(_, _) => LoginMintKeeps(cfg, s, c, ids, now);
    case LoginMinted(row, session) =>
      assert CallOk(s, c, s.calls[c]);
      DiscloseKeeps(s, row, c);
      RowStepKeeps(s, Disclose(s, row), c, LoginDone(row, session));
    case _ => NothingKeeps(s, c);
  }

  // ---- Refreshes ----

  /** A row whose raw token a caller presented is a disclosed one. */
  lemma FoundRow(s: State, raw: Text)
    requires Inv(s) && raw in s.presented
    ensures var at := FindRefresh(s.db.refresh, Sha256(raw));
            at.Some? ==> Presented(s, at.value, s.db.refresh[at.value])
  {
    var at := FindRefresh(s.db.refresh, Sha256(raw));
    if at.Some? {
      assert RowOk(s.db.refresh, s.info, s.presented, at.value);
    }
  }

  lemma AccountClaimsNameSubject(db: Tables, subj: Subject)
    ensures var claims := AccountClaims(db, subj); claims.Ok? ==> ClaimsFor(subj, claims.value)
  {
  }

  lemma RefreshReadKeeps(cfg: TokenConfig, s: State, c: nat, ids: MintIds, now: Time)
    requires Inv(s) && c in s.calls
    requires s.calls[c].RefreshStart? || s.calls[c].RefreshRead? || s.calls[c].RefreshChecked?
    ensures var s' := RefreshStep(cfg, s, c, s.calls[c], ids, now); Inv(s') && StateGrows(s, s', c)
  {
    assert CallOk(s, c, s.calls[c]);
    match s.calls[c]
    case RefreshStart(raw) =>
      FoundRow(s, raw);
      var at := FindRefresh(s.db.refresh, Sha256(raw));
      MoveKeeps(s, c, if at.None? then Failed(Unauthorized, None) else RefreshRead(at.value, s.db.refresh[at.value]));
    case RefreshRead(from, existing) =>
      var checked := RefreshCheck(existing, now);
      MoveKeeps(s, c, if checked == Err(TokenRevoked) then RefreshReplay(existing.Owner())
                      else if checked.Err? then Failed(checked.error, None)
                      else RefreshChecked(from, existing, checked.value));
    case RefreshChecked(from, existing, subj) =>
      var claims := AccountClaims(s.db, subj);
      AccountClaimsNameSubject(s.db, subj);
      MoveKeeps(s, c,
                if claims.Err? then Failed(claims.error, None)
                else RefreshAuthorized(from, existing, subj, claims.value));
  }

  /** The successor row belongs to the login and the owner of the presented one. */
  lemma MintKeeps(cfg: TokenConfig, s: State, c: nat, ids: MintIds, now: Time)
    requires Inv(s) && c in s.calls && s.calls[c].RefreshAuthorized? && NewRaw(s, ids.raw)
    ensures var s' := RefreshStep(cfg, s, c, s.calls[c], ids, now); Inv(s') && StateGrows(s, s', c)
  {
    var call := s.calls[c];
    assert CallOk(s, c, call);
    assert RowOk(s.db.refresh, s.info, s.presented, call.from);
    assert call.subj == s.db.refresh[call.from].Owner();
    if HasRefreshId(s.db.refresh, ids.rowId) {
      MoveKeeps(s, c, Failed(Internal, None));
    } else {
      var row, n := NewRow(cfg, call.subj, ids, now), RowInfo(c, s.info[call.from].root, false, false, None);
      assert RowOk(s.db.refresh, s.info, s.presented, n.root);
      InsertKeeps(s, row, n, c);
      RowStepKeeps(s, InsertRow(s, row, n), c,
                   RefreshMinted(call.from, call.existing, |s.db.refresh|, NewSession(cfg, call.claims, ids, now)));
    }
  }

  lemma RotateStepKeeps(cfg: TokenConfig, s: State, c: nat, ids: MintIds, now: Time)
    requires Inv(s) && c in s.calls && s.calls[c].RefreshMinted?
    ensures var s' := RefreshStep(cfg, s, c, s.calls[c], ids, now); Inv(s') && StateGrows(s, s', c)
  {
    assert CallOk(s, c, s.calls[c]);
    var RefreshMinted(from, existing, row, session) := s.calls[c];
    assert RowOk(s.db.refresh, s.info, s.presented, row);
    if RevokeAffects(s.db.refresh, existing.id) {
      RotateKeeps(s, c, from, existing, row, now);
      RowStepKeeps(s, Rotate(s, c, from, existing, row, now), c, RefreshWon(from, row, session));
    } else {
      MoveKeeps(s, c, Failed(NotFound, Some(row)));
    }
  }

  lemma RefreshStepKeeps(cfg: TokenConfig, s: State, c: nat, ids: MintIds, now: Time)
    requires Inv(s) && c in s.calls && !IsLogin(s.calls[c]) && !IsLogout(s.calls[c]) && !IsReset(s.calls[c])
    requires s.calls[c].RefreshAuthorized? ==> NewRaw(s, ids.raw)
    ensures var s' := RefreshStep(cfg, s, c, s.calls[c], ids, now); Inv(s') && StateGrows(s, s', c)
  {
    assert CallOk(s, c, s.calls[c]);
    match s.calls[c]
    case RefreshStart(_) => RefreshReadKeeps(cfg, s, c, ids, now);
    case RefreshRead(_, _) => RefreshReadKeeps(cfg, s, c, ids, now);
    case RefreshChecked(_, _, _) => RefreshReadKeeps(cfg, s, c, ids, now);
    case RefreshAuthorized(_, _, _, _) => MintKeeps(cfg, s, c, ids, now);
    case RefreshMinted(_, _, _, _) => RotateStepKeeps(cfg, s, c, ids, now);
    case RefreshReplay(subj) =>
      RevokeOwnedKeeps(s, subj, now, c);
      RowStepKeeps(s, RevokeOwned(s, subj, now), c, Failed(TokenRevoked, None));
    case RefreshWon(from, row, session) =>
      DiscloseKeeps(s, row, c);
      RowStepKeeps(s, Disclose(s, row), c, RefreshDone(from, row, session));
    case _ => NothingKeeps(s, c);
  }

  // ---- Logouts ----

  lemma LogoutRevokeKeeps(s: State, c: nat, existing: RefreshToken, now: Time)
    requires Inv(s) && c in s.calls && s.calls[c] == LogoutRead(existing)
    ensures var s' := LogoutStep(s, c, s.calls[c], now); Inv(s') && StateGrows(s, s', c)
  {
    var rows := RevokeById(s.db.refresh, existing.id, None, now);
    RevokingKeeps(s.db.refresh, s.info, s.presented, rows, c);
    RowStepKeeps(s, WithRefresh(s, rows), c, LogoutDone);
  }

  lemma LogoutStepKeeps(s: State, c: nat, now: Time)
    requires Inv(s) && c in s.calls && IsLogout(s.calls[c])
    ensures var s' := LogoutStep(s, c, s.calls[c], now); Inv(s') && StateGrows(s, s', c)
  {
    match s.calls[c]
    case LogoutStart(raw) =>
      var at := FindRefresh(s.db.refresh, Sha256(raw));
      MoveKeeps(s, c, if raw == Empty || at.None? then LogoutDone else LogoutRead(s.db.refresh[at.value]));
    case LogoutRead(existing) => LogoutRevokeKeeps(s, c, existing, now);
    case _ => NothingKeeps(s, c);
  }

  // ---- Password resets ----

  lemma MarkedExactly(s: State, r: nat, rec: PasswordReset, now: Time)
    requires ResetsOk(s) && SameReset(s, r, rec)
    ensures MarkAffects(s.db.resets, rec.id) <==> s.db.resets[r].usedAt.None?
    ensures MarkAffects(s.db.resets, rec.id) ==>
              MarkUsed(s.db.resets, rec.id, now) == s.db.resets[r := s.db.resets[r].(usedAt := Some(now))]
  {
    var rows := s.db.resets;
    forall q | 0 <= q < |rows| && q != r
      ensures rows[q].id != rec.id
    {
      if q < r {
        assert rows[q].id != rows[r].id;
      } else {
        assert rows[r].id != rows[q].id;
      }
    }
    if rows[r].usedAt.None? {
      assert Unused(rows[r], rec.id);
    }
  }

  lemma MarkKeeps(s: State, c: nat, r: nat, rec: PasswordReset, hash: PasswordHash, now: Time)
    requires Inv(s) && SameReset(s, r, rec) && NoWriteBy(s, c) && MarkAffects(s.db.resets, rec.id)
    ensures var s' := WithCall(Mark(s, c, r, rec.id, now), c, ResetMarked(r, rec, hash));
            Inv(s') && StateGrows(s, s', c)
  {
    var s' := WithCall(Mark(s, c, r, rec.id, now), c, ResetMarked(r, rec, hash));
    MarkedExactly(s, r, rec, now);
    assert ResetOk(s.db.resets[r], s.resetInfo[r]);
    RowsUntouched(s, s', c);
    forall w | 0 <= w < |s'.writes|
      ensures WriteOk(s', s'.writes[w])
    {
      assert WriteOk(s, s.writes[w]);
    }
    StepKeeps(s, s', c);
  }

  /** The password is written by the one call that marked the record, and it writes once. */
  lemma WriteResetsOk(s: State, c: nat, r: nat, rec: PasswordReset, w: PasswordWrite, db: Tables)
    requires Inv(s) && c in s.calls && CallOk(s, c, s.calls[c]) && s.calls[c].ResetMarked? && s.calls[c].reset == r
    requires s.calls[c].rec == rec
    requires w.writer == c && w.reset == r && w.subj == rec.Owner() && db.resets == s.db.resets
    ensures var s' := s.(db := db, writes := s.writes + [w]); ResetsOk(s') && ResetsGrow(s, s', c)
  {
    var s' := s.(db := db, writes := s.writes + [w]);
    assert s'.writes[|s.writes|] == w;
    forall v | 0 <= v < |s'.writes|
      ensures WriteOk(s', s'.writes[v]) && (v < |s.writes| ==> s'.writes[v].reset != r)
    {
      if v < |s.writes| {
        assert WriteOk(s, s.writes[v]);
      }
    }
  }

  lemma ResetsOkElsewhere(s: State, s1: State, c: nat, call: Call)
    requires ResetsOk(s1) && ResetsGrow(s, s1, c)
    ensures ResetsOk(WithCall(s1, c, call)) && ResetsGrow(s, WithCall(s1, c, call), c)
  {
    forall v | 0 <= v < |s1.writes|
      ensures WriteOk(WithCall(s1, c, call), s1.writes[v])
    {
      assert WriteOk(s1, s1.writes[v]);
    }
  }

  /** The written record of the call stands in the list of writes. */
  lemma WrittenCallOk(s: State, c: nat, r: nat, subj: Subject, hash: PasswordHash)
    requires r < |s.resetInfo| && subj == s.resetInfo[r].requestedFor && Canonical(subj)
    requires s.writes != [] && s.writes[|s.writes| - 1] == PasswordWrite(c, r, subj, hash)
    ensures CallOk(s, c, ResetWritten(r, subj))
  {
    var w: nat := |s.writes| - 1;
    assert s.writes[w].writer == c && s.writes[w].reset == r && s.writes[w].subj == subj;
  }

  /** The tables change as they may, one call moves, and its new program point is as it should be. */
  lemma ResetMoveKeeps(s: State, s1: State, c: nat, call: Call)
    requires Inv(s) && ResetsOk(s1) && ResetsGrow(s, s1, c) && s1.calls == s.calls && s1.presented == s.presented
    requires s1.db.refresh == s.db.refresh && s1.info == s.info && CallOk(s1, c, call)
    ensures Inv(WithCall(s1, c, call)) && StateGrows(s, WithCall(s1, c, call), c)
  {
    ResetsOkElsewhere(s, s1, c, call);
    RowsUntouched(s, WithCall(s1, c, call), c);
    CallOkElsewhere(s1, s1.calls[c := call], c, call);
    StepKeeps(s, WithCall(s1, c, call), c);
  }

  lemma WriteKeeps(s: State, c: nat, r: nat, rec: PasswordReset, hash: PasswordHash, db: Tables)
    requires Inv(s) && c in s.calls && s.calls[c] == ResetMarked(r, rec, hash)
    requires db.refresh == s.db.refresh && db.resets == s.db.resets
    ensures var s' := WithCall(s.(db := db, writes := s.writes + [PasswordWrite(c, r, rec.Owner(), hash)]), c,
                               ResetWritten(r, rec.Owner()));
            Inv(s') && StateGrows(s, s', c)
  {
    var w := PasswordWrite(c, r, rec.Owner(), hash);
    var s1 := s.(db := db, writes := s.writes + [w]);
    assert CallOk(s, c, s.calls[c]);
    WriteResetsOk(s, c, r, rec, w, db);
    assert ResetOk(s.db.resets[r], s.resetInfo[r]);
    WrittenCallOk(s1, c, r, rec.Owner(), hash);
    ResetMoveKeeps(s, s1, c, ResetWritten(r, rec.Owner()));
  }

  lemma OwnedByIsOwner(t: RefreshToken, subj: Subject)
    requires OneOwner(t) && Canonical(subj)
    ensures OwnedBy(t, subj) <==> t.Owner() == subj
  {
  }

  /** Right after a revocation by subject every row of that subject is revoked. */
  lemma RevokeOwnedIsComplete(s: State, subj: Subject, now: Time)
    requires RowsOk(s.db.refresh, s.info, s.presented) && Canonical(subj)
    ensures RevokedBelow(RevokeOwned(s, subj, now), subj, |s.db.refresh|)
  {
    var rows' := RevokeBySubject(s.db.refresh, subj, now);
    forall i | 0 <= i < |rows'| && rows'[i].Owner() == subj
      ensures rows'[i].revokedAt.Some?
    {
      assert RowOk(s.db.refresh, s.info, s.presented, i);
      OwnedByIsOwner(s.db.refresh[i], subj);
    }
  }

  lemma ResetReadKeeps(s: State, c: nat, salt: nat, now: Time)
    requires Inv(s) && c in s.calls && (s.calls[c].ResetStart? || s.calls[c].ResetRead?)
    ensures var s' := ResetStep(s, c, s.calls[c], salt, now); Inv(s') && StateGrows(s, s', c)
  {
    assert CallOk(s, c, s.calls[c]);
    match s.calls[c]
    case ResetStart(token, password) =>
      var at := FindReset(s.db.resets, Sha256(TrimText(token)));
      if at.Some? {
        assert ResetOk(s.db.resets[at.value], s.resetInfo[at.value]);
      }
      MoveKeeps(s, c, if TrimText(token) == Empty || password == "" then Failed(InvalidInput, None)
                      else if at.None? then Failed(Unauthorized, None)
                      else ResetRead(at.value, s.db.resets[at.value], password));
    case ResetRead(r, rec, password) =>
      var hash := HashPassword(password, salt);
      MoveKeeps(s, c, if !ResetUsable(rec, now) then Failed(Unauthorized, None)
                      else if hash.Err? then Failed(hash.error, None) else ResetChecked(r, rec, hash.value));
  }

  lemma ResetWriteKeeps(s: State, c: nat, salt: nat, now: Time)
    requires Inv(s) && c in s.calls && (s.calls[c].ResetChecked? || s.calls[c].ResetMarked?)
    ensures var s' := ResetStep(s, c, s.calls[c], salt, now); Inv(s') && StateGrows(s, s', c)
  {
    assert CallOk(s, c, s.calls[c]);
    match s.calls[c]
    case ResetChecked(r, rec, hash) =>
      if MarkAffects(s.db.resets, rec.id) {
        MarkKeeps(s, c, r, rec, hash, now);
      } else {
        MoveKeeps(s, c, Failed(NotFound, None));
      }
    case ResetMarked(r, rec, hash) =>
      var written := SetPassword(s.db, rec.Owner(), hash);
      if written.Err? {
        MoveKeeps(s, c, Failed(written.error, None));
      } else {
        WriteKeeps(s, c, r, rec, hash, written.value);
      }
  }

  lemma ResetStepKeeps(s: State, c: nat, salt: nat, now: Time)
    requires Inv(s) && c in s.calls && IsReset(s.calls[c])
    ensures var s' := ResetStep(s, c, s.calls[c], salt, now); Inv(s') && StateGrows(s, s', c)
  {
    assert CallOk(s, c, s.calls[c]);
    match s.calls[c]
    case ResetStart(_, _) => ResetReadKeeps(s, c, salt, now);
    case ResetRead(_, _, _) => ResetReadKeeps(s, c, salt, now);
    case ResetChecked(_, _, _) => ResetWriteKeeps(s, c, salt, now);
    case ResetMarked(_, _, _) => ResetWriteKeeps(s, c, salt, now);
    case ResetWritten(r, subj) =>
      RevokeOwnedKeeps(s, subj, now, c);
      RevokeOwnedIsComplete(s, subj, now);
      RowStepKeeps(s, RevokeOwned(s, subj, now), c, ResetDone(r, subj, |s.db.refresh|));
    case _ => NothingKeeps(s, c);
  }

  // ---- All events ----

  lemma StepOfCallKeeps(cfg: TokenConfig, s: State, c: nat, ids: MintIds, salt: nat, now: Time)
    requires Inv(s) && c in s.calls
    requires s.calls[c].LoginReady? || s.calls[c].RefreshAuthorized? ==> NewRaw(s, ids.raw)
    ensures var s' := Step(cfg, s, c, s.calls[c], ids, salt, now); Inv(s') && StateGrows(s, s', c)
  {
    if IsLogin(s.calls[c]) {
      LoginStepKeeps(cfg, s, c, ids, now);
    } else if IsLogout(s.calls[c]) {
      LogoutStepKeeps(s, c, now);
    } else if IsReset(s.calls[c]) {
      ResetStepKeeps(s, c, salt, now);
    } else {
      RefreshStepKeeps(cfg, s, c, ids, now);
    }
  }

  lemma RequestKeeps(s: State, subj: Subject, id: Text, raw: Text, now: Time)
    requires Inv(s) && Canonical(subj) && forall r :: 0 <= r < |s.db.resets| ==> s.db.resets[r].id != id
    ensures var s' := s.(db := s.db.(resets := s.db.resets + [NewReset(subj, id, raw, now)]),
                         resetInfo := s.resetInfo + [ResetInfo(subj, None)]);
            Inv(s') && StateGrows(s, s', -1)
  {
    var s' := s.(db := s.db.(resets := s.db.resets + [NewReset(subj, id, raw, now)]),
                 resetInfo := s.resetInfo + [ResetInfo(subj, None)]);
    RowsUntouched(s, s', -1);
    forall w | 0 <= w < |s'.writes|
      ensures WriteOk(s', s'.writes[w])
    {
      assert WriteOk(s, s.writes[w]);
    }
    StepKeeps(s, s', -1);
  }

  /** A caller presents a raw token: only rows handed out can have it. */
  lemma PresentKeeps(s: State, raw: Text)
    requires Inv(s) && MayPresent(s, raw)
    ensures Inv(s.(presented := s.presented + {raw}))
  {
    var s' := s.(presented := s.presented + {raw});
    forall i | 0 <= i < |s.db.refresh|
      ensures RowOk(s.db.refresh, s.info, s'.presented, i)
    {
      assert RowOk(s.db.refresh, s.info, s.presented, i);
    }
    RowsUntouched(s, s', -1);
    ResetsUntouched(s, s', -1);
    StepKeeps(s, s', -1);
  }

  lemma NewCallKeeps(s: State, c: nat, call: Call)
    requires Inv(s) && c !in s.calls
    requires call.LoginReady? || call.RefreshStart? || call.LogoutStart? || call.ResetStart?
    requires call.LoginReady? ==> Canonical(call.subj) && ClaimsFor(call.subj, call.claims)
    requires call.RefreshStart? ==> call.raw in s.presented
    ensures Inv(WithCall(s, c, call)) && StateGrows(s, WithCall(s, c, call), c)
  {
    forall w | 0 <= w < |s.writes|
      ensures s.writes[w].writer != c
    {
      assert WriteOk(s, s.writes[w]);
    }
    MoveKeeps(s, c, call);
  }

  /** The call that acts in an event, or -1. */
  function Actor(a: Action): int {
    match a
    case StartLogin(c, _, _) => c
    case StartRefresh(c, _) => c
    case StartLogout(c, _) => c
    case StartReset(c, _, _) => c
    case Advance(c, _, _) => c
    case Fail(c) => c
    case _ => -1
  }

  /** Events that are no step of a call in flight. */
  lemma OutsideKeeps(s: State, e: Event)
    requires Inv(s) && (e.action.Elsewhere? || e.action.ForceLogout?)
    requires e.action.Elsewhere? ==> e.action.db.refresh == s.db.refresh && e.action.db.resets == s.db.resets
    ensures var s' := if e.action.Elsewhere? then s.(db := e.action.db) else RevokeOwned(s, e.action.subj, e.now);
            Inv(s') && StateGrows(s, s', -1)
  {
    var s' := if e.action.Elsewhere? then s.(db := e.action.db) else RevokeOwned(s, e.action.subj, e.now);
    if e.action.Elsewhere? {
      RowsUntouched(s, s', -1);
    } else {
      RevokeOwnedKeeps(s, e.action.subj, e.now, -1);
    }
    ResetsUntouched(s, s', -1);
    StepKeeps(s, s', -1);
  }

  lemma FailKeeps(s: State, c: nat)
    requires Inv(s) && c in s.calls && !Final(s.calls[c])
    ensures var s' := WithCall(s, c, Failure(s.calls[c])); Inv(s') && StateGrows(s, s', c)
  {
    assert CallOk(s, c, s.calls[c]);
    if s.calls[c].RefreshMinted? {
      assert RowOk(s.db.refresh, s.info, s.presented, s.calls[c].row);
    }
    MoveKeeps(s, c, Failure(s.calls[c]));
  }

  lemma ActKeeps(cfg: TokenConfig, s: State, e: Event)
    requires Inv(s) && Enabled(s, e)
    ensures var s' := Act(cfg, s, e.action, e.now); Inv(s') && StateGrows(s, s', Actor(e.action))
  {
    match e.action
    case Elsewhere(db) => OutsideKeeps(s, e);
    case ForceLogout(subj) => OutsideKeeps(s, e);
    case RequestReset(email, id, raw) =>
      NothingKeeps(s, -1);
      var subj := ResetSubject(s.db, NormalEmail(email));
      if subj.Some? {
        RequestKeeps(s, subj.value, id, raw, e.now);
      }
    case StartLogin(c, subj, claims) => NewCallKeeps(s, c, LoginReady(subj, claims));
    case StartRefresh(c, raw) =>
      PresentKeeps(s, raw);
      NewCallKeeps(s.(presented := s.presented + {raw}), c, RefreshStart(raw));
    case StartLogout(c, raw) =>
      PresentKeeps(s, raw);
      NewCallKeeps(s.(presented := s.presented + {raw}), c, LogoutStart(raw));
    case StartReset(c, token, password) => NewCallKeeps(s, c, ResetStart(token, password));
    case Advance(c, ids, salt) => StepOfCallKeeps(cfg, s, c, ids, salt, e.now);
    case Fail(c) => FailKeeps(s, c);
  }

  lemma ClockKeeps(s: State, now: Time)
    requires Inv(s)
    ensures Inv(s.(clock := now))
  {
    var s' := s.(clock := now);
    RowsUntouched(s, s', -1);
    ResetsUntouched(s, s', -1);
    StepKeeps(s, s', -1);
  }

  lemma EventKeeps(cfg: TokenConfig, s: State, e: Event)
    requires Inv(s) && Enabled(s, e)
    ensures Inv(Next(cfg, s, e)) && StateGrows(s, Next(cfg, s, e), Actor(e.action))
  {
    var s1 := s.(clock := e.now);
    ClockKeeps(s, e.now);
    ActKeeps(cfg, s1, e);
  }

  lemma {:induction false} RunKeeps(cfg: TokenConfig, s: State, es: seq<Event>, n: nat)
    requires n <= |es| && Inv(s) && ValidRun(cfg, s, es, n)
    ensures Inv(StateAt(cfg, s, es, n))
  {
    if n > 0 {
      RunKeeps(cfg, s, es, n - 1);
      EventKeeps(cfg, StateAt(cfg, s, es, n - 1), es[n - 1]);
    }
  }
}
