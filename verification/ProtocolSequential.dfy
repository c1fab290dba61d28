/** Calls that run without interference: a replayed token ends every session of its subject, and an
    uninterrupted refresh of the step protocol is the refresh of the service. */
module ProtocolSequential {
  import opened Domain
  import opened AccessTokens
  import opened Store
  import opened Flows
  import opened Protocol
  import opened ProtocolInvariants
  import opened ProtocolSteps
  import opened ProtocolTheorems
  import opened ProtocolRows

  // ---- Replay ----

  ghost predicate Quiescent(s: State) {
    forall c :: c in s.calls ==> Final(s.calls[c])
  }

  /** The call is not about to mint a row for `subj`. */
  predicate MintsNotFor(call: Call, subj: Subject) {
    match call
    case LoginReady(sj, _) => sj != subj
    case RefreshRead(_, existing) => existing.Owner() == subj ==> existing.revokedAt.Some?
    case RefreshChecked(_, _, sj) => sj != subj
    case RefreshAuthorized(_, _, sj, _) => sj != subj
    case _ => true
  }

  /** Every row of `subj` is revoked, and no call in flight can make another one. */
  ghost predicate LoggedOut(s: State, subj: Subject) {
    RevokedBelow(s, subj, |s.db.refresh|) && forall c :: c in s.calls ==> MintsNotFor(s.calls[c], subj)
  }

  lemma MintedOwner(cfg: TokenConfig, subj: Subject, ids: MintIds, now: Time)
    requires Canonical(subj)
    ensures NewRow(cfg, subj, ids, now).Owner() == subj
  {
  }

  /** A new row belongs to the subject that its call was about to mint for. */
  lemma NewRowsOwner(cfg: TokenConfig, s: State, e: Event, i: nat)
    requires Inv(s) && Enabled(s, e) && |s.db.refresh| <= i < |Next(cfg, s, e).db.refresh|
    ensures e.action.Advance? && e.action.c in s.calls && Minting(s.calls[e.action.c])
    ensures Next(cfg, s, e).db.refresh[i].Owner() == s.calls[e.action.c].subj
  {
    EventAddsRows(cfg, s, e);
    var call := s.calls[e.action.c];
    assert CallOk(s, e.action.c, call);
    if call.RefreshAuthorized? {
      assert RowOk(s.db.refresh, s.info, s.presented, call.from);
    }
    MintedOwner(cfg, call.subj, e.action.ids, e.now);
  }

  /** A refresh of a subject whose rows are all revoked goes no further than the activity test. */
  lemma ReadMintsNot(cfg: TokenConfig, s: State, c: nat, ids: MintIds, now: Time, subj: Subject)
    requires LoggedOut(s, subj) && c in s.calls && (s.calls[c].RefreshStart? || s.calls[c].RefreshRead?)
    ensures var t := RefreshStep(cfg, s, c, s.calls[c], ids, now); c in t.calls && MintsNotFor(t.calls[c], subj)
  {
    assert MintsNotFor(s.calls[c], subj);
  }

  lemma StepMintsNot(cfg: TokenConfig, s: State, c: nat, ids: MintIds, salt: nat, now: Time, subj: Subject)
    requires LoggedOut(s, subj) && c in s.calls
    ensures var t := Step(cfg, s, c, s.calls[c], ids, salt, now); c in t.calls && MintsNotFor(t.calls[c], subj)
  {
    assert MintsNotFor(s.calls[c], subj);
    if s.calls[c].RefreshStart? || s.calls[c].RefreshRead? {
      ReadMintsNot(cfg, s, c, ids, now, subj);
    }
  }

  lemma LoggedOutCalls(cfg: TokenConfig, s: State, e: Event, subj: Subject, c: nat)
    requires Inv(s) && Enabled(s, e) && LoggedOut(s, subj) && c in Next(cfg, s, e).calls
    requires e.action.StartLogin? ==> e.action.subj != subj
    ensures MintsNotFor(Next(cfg, s, e).calls[c], subj)
  {
    if e.action.Advance? {
      var s1 := s.(clock := e.now);
      if c == e.action.c {
        StepMintsNot(cfg, s1, c, e.action.ids, e.action.salt, e.now, subj);
      } else {
        StepMovesOnly(cfg, s1, e.action.c, s.calls[e.action.c], e.action.ids, e.action.salt, e.now, c);
      }
    }
  }

  lemma LoggedOutKeeps(cfg: TokenConfig, s: State, e: Event, subj: Subject)
    requires Inv(s) && Enabled(s, e) && LoggedOut(s, subj)
    requires e.action.StartLogin? ==> e.action.subj != subj
    ensures LoggedOut(Next(cfg, s, e), subj)
  {
    var t := Next(cfg, s, e);
    EventKeeps(cfg, s, e);
    forall i | 0 <= i < |t.db.refresh| && t.db.refresh[i].Owner() == subj
      ensures t.db.refresh[i].revokedAt.Some?
    {
      if i < |s.db.refresh| {
        assert RowGrows(s.db.refresh[i], s.info[i], t.db.refresh[i], t.info[i], Actor(e.action));
      } else {
        NewRowsOwner(cfg, s, e, i);
      }
    }
    forall c | c in t.calls
      ensures MintsNotFor(t.calls[c], subj)
    {
      LoggedOutCalls(cfg, s, e, subj, c);
    }
  }

  lemma {:induction false} StaysLoggedOut(cfg: TokenConfig, s: State, es: seq<Event>, m: nat, n: nat, subj: Subject)
    requires m <= n <= |es| && Inv(s) && ValidRun(cfg, s, es, n) && LoggedOut(StateAt(cfg, s, es, m), subj)
    requires forall k :: m <= k < n && es[k].action.StartLogin? ==> es[k].action.subj != subj
    ensures LoggedOut(StateAt(cfg, s, es, n), subj)
    decreases n
  {
    if m < n {
      StaysLoggedOut(cfg, s, es, m, n - 1, subj);
      RunKeeps(cfg, s, es, n - 1);
      LoggedOutKeeps(cfg, StateAt(cfg, s, es, n - 1), es[n - 1], subj);
    }
  }

  /** The first four events are one refresh, by itself, with the raw token of row `i`. */
  ghost predicate Presents(es: seq<Event>, c: nat, raw: Text) {
    && |es| >= 4 && es[0].action == StartRefresh(c, raw)
    && forall k :: 1 <= k < 4 ==> es[k].action.Advance? && es[k].action.c == c
  }

  lemma ReplayStarts(cfg: TokenConfig, s: State, es: seq<Event>, c: nat, raw: Text)
    requires Presents(es, c, raw)
    ensures var t := StateAt(cfg, s, es, 1); t.calls == s.calls[c := RefreshStart(raw)] && t.db == s.db
  {
    assert StateAt(cfg, s, es, 1) == Next(cfg, StateAt(cfg, s, es, 0), es[0]);
  }

  lemma ReplayReads(cfg: TokenConfig, s: State, es: seq<Event>, c: nat, raw: Text, i: nat)
    requires Presents(es, c, raw) && FindRefresh(s.db.refresh, Sha256(raw)) == Some(i) && i < |s.db.refresh|
    ensures var t := StateAt(cfg, s, es, 2); t.calls == s.calls[c := RefreshRead(i, s.db.refresh[i])] && t.db == s.db
  {
    ReplayStarts(cfg, s, es, c, raw);
    assert StateAt(cfg, s, es, 2) == Next(cfg, StateAt(cfg, s, es, 1), es[1]);
  }

  lemma ReplayIsSeen(cfg: TokenConfig, s: State, es: seq<Event>, c: nat, raw: Text, i: nat)
    requires Presents(es, c, raw)
    requires FindRefresh(s.db.refresh, Sha256(raw)) == Some(i) && i < |s.db.refresh|
    requires s.db.refresh[i].revokedAt.Some? || s.db.refresh[i].expiresAt <= es[2].now
    ensures var t := StateAt(cfg, s, es, 3);
            t.calls == s.calls[c := RefreshReplay(s.db.refresh[i].Owner())] && t.db == s.db
  {
    ReplayReads(cfg, s, es, c, raw, i);
    assert StateAt(cfg, s, es, 3) == Next(cfg, StateAt(cfg, s, es, 2), es[2]);
  }

  lemma ReplayRuns(cfg: TokenConfig, s: State, es: seq<Event>, c: nat, raw: Text, i: nat)
    requires Presents(es, c, raw)
    requires FindRefresh(s.db.refresh, Sha256(raw)) == Some(i) && i < |s.db.refresh|
    requires s.db.refresh[i].revokedAt.Some? || s.db.refresh[i].expiresAt <= es[2].now
    ensures var t := StateAt(cfg, s, es, 4);
            && t.calls == s.calls[c := Failed(TokenRevoked, None)]
            && t.db.refresh == RevokeBySubject(s.db.refresh, s.db.refresh[i].Owner(), es[3].now)
  {
    ReplayIsSeen(cfg, s, es, c, raw, i);
    assert StateAt(cfg, s, es, 4) == Next(cfg, StateAt(cfg, s, es, 3), es[3]);
  }

  /** Once all rows of the subject are revoked, and every call is at its end, the subject is logged out. */
  lemma RevokedIsLoggedOut(s: State, t: State, c: nat, subj: Subject, now: Time)
    requires RowsOk(s.db.refresh, s.info, s.presented) && Quiescent(s) && Canonical(subj)
    requires t.calls == s.calls[c := Failed(TokenRevoked,
                                            None)] && t.db.refresh == RevokeBySubject(s.db.refresh, subj, now)
    ensures LoggedOut(t, subj)
  {
    RevokeOwnedIsComplete(s, subj, now);
    assert t.db.refresh == RevokeOwned(s, subj, now).db.refresh;
  }

  /** Replay kills the family: presenting a token that is revoked or expired, while no other call is
      under way, returns "token revoked"; from then on, under any interleaving of later calls and until
      a new login of the subject, no refresh token of the subject is unrevoked. */
  lemma ReplayKillsFamily(cfg: TokenConfig, s: State, es: seq<Event>, c: nat, raw: Text, i: nat, n: nat)
    requires Inv(s) && Quiescent(s) && Presents(es, c, raw) && 4 <= n <= |es| && ValidRun(cfg, s, es, n)
    requires FindRefresh(s.db.refresh, Sha256(raw)) == Some(i) && i < |s.db.refresh|
    requires s.db.refresh[i].revokedAt.Some? || s.db.refresh[i].expiresAt <= es[2].now
    requires forall k :: 4 <= k < n && es[k].action.StartLogin? ==> es[k].action.subj != s.db.refresh[i].Owner()
    ensures StateAt(cfg, s, es, 4).calls == s.calls[c := Failed(TokenRevoked, None)]
    ensures var rows, subj := StateAt(cfg, s, es, n).db.refresh, s.db.refresh[i].Owner();
            forall j :: 0 <= j < |rows| && rows[j].Owner() == subj ==> rows[j].revokedAt.Some?
  {
    var subj := s.db.refresh[i].Owner();
    ReplayRuns(cfg, s, es, c, raw, i);
    assert RowOk(s.db.refresh, s.info, s.presented, i);
    RevokedIsLoggedOut(s, StateAt(cfg, s, es, 4), c, subj, es[3].now);
    StaysLoggedOut(cfg, s, es, 4, n, subj);
  }

  // ---- One refresh by itself ----

  function Outcome(call: Call): Result<Session> {
    if call.RefreshDone? then Ok(call.session) else if call.Failed? then Err(call.error) else Err(Internal)
  }

  /** A start and six steps of call `c`, with the same random values throughout. */
  ghost predicate Alone(es: seq<Event>, c: nat, raw: Text, ids: MintIds) {
    && |es| == 7 && es[0].action == StartRefresh(c, raw)
    && forall k :: 1 <= k < 7 ==> es[k].action == Advance(c, ids, 0)
  }

  /** The state in which only call `c` has moved. */
  ghost function Moved(s: State, raw: Text, c: nat, call: Call, now: Time): State {
    WithCall(s.(presented := s.presented + {raw}, clock := now), c, call)
  }

  lemma FinalStays(cfg: TokenConfig, s: State, e: Event)
    requires e.action.Advance? && e.action.c in s.calls && Final(s.calls[e.action.c])
    ensures Next(cfg, s, e) == s.(clock := e.now)
  {
  }

  lemma FirstStart(cfg: TokenConfig, s: State, es: seq<Event>, c: nat, raw: Text, ids: MintIds)
    requires Alone(es, c, raw, ids)
    ensures StateAt(cfg, s, es, 1) == Moved(s, raw, c, RefreshStart(raw), es[0].now)
  {
    assert StateAt(cfg, s, es, 1) == Next(cfg, StateAt(cfg, s, es, 0), es[0]);
  }

  lemma FirstRead(cfg: TokenConfig, s: State, es: seq<Event>, c: nat, raw: Text, ids: MintIds)
    requires Alone(es, c, raw, ids)
    ensures var at := FindRefresh(s.db.refresh, Sha256(raw));
            StateAt(cfg, s, es, 2) ==
            Moved(s, raw, c,
                  if at.None? then Failed(Unauthorized, None) else RefreshRead(at.value, s.db.refresh[at.value]),
                  es[1].now)
  {
    FirstStart(cfg, s, es, c, raw, ids);
    assert StateAt(cfg, s, es, 2) == Next(cfg, StateAt(cfg, s, es, 1), es[1]);
  }

  /** Where the activity test sends a refresh. */
  function CheckedCall(from: nat, row: RefreshToken, now: Time): Call {
    var checked := RefreshCheck(row, now);
    if checked == Err(TokenRevoked) then RefreshReplay(row.Owner())
    else if checked.Err? then Failed(checked.error, None)
    else RefreshChecked(from, row, checked.value)
  }

  lemma CheckStep(cfg: TokenConfig, t: State, e: Event, c: nat, ids: MintIds, from: nat, row: RefreshToken)
    requires e.action == Advance(c, ids, 0) && c in t.calls && t.calls[c] == RefreshRead(from, row)
    ensures Next(cfg, t, e) == WithCall(t.(clock := e.now), c, CheckedCall(from, row, e.now))
  {
  }

  lemma FirstHalf(cfg: TokenConfig, s: State, es: seq<Event>, c: nat, raw: Text, ids: MintIds)
    requires Alone(es, c, raw, ids)
    ensures var at := FindRefresh(s.db.refresh, Sha256(raw));
            StateAt(cfg, s, es, 3) ==
            Moved(s, raw, c,
                  if at.None? then Failed(Unauthorized, None)
                  else CheckedCall(at.value, s.db.refresh[at.value], es[2].now),
                  es[2].now)
  {
    FirstRead(cfg, s, es, c, raw, ids);
    var t := StateAt(cfg, s, es, 2);
    assert StateAt(cfg, s, es, 3) == Next(cfg, t, es[2]);
    if t.calls[c].Failed? {
      FinalStays(cfg, t, es[2]);
    } else {
      CheckStep(cfg, t, es[2], c, ids, t.calls[c].from, t.calls[c].existing);
    }
  }

  lemma TailOfFailure(cfg: TokenConfig, s: State, es: seq<Event>, c: nat, raw: Text, ids: MintIds, k: nat)
    requires Alone(es, c, raw, ids) && 1 <= k < 7 && c in StateAt(cfg, s, es, k).calls
    requires Final(StateAt(cfg, s, es, k).calls[c])
    ensures StateAt(cfg, s, es, 7).db == StateAt(cfg, s, es, k).db
    ensures c in StateAt(cfg, s, es, 7).calls && StateAt(cfg, s, es, 7).calls[c] == StateAt(cfg, s, es, k).calls[c]
    decreases 7 - k
  {
    FinalStays(cfg, StateAt(cfg, s, es, k), es[k]);
    assert StateAt(cfg, s, es, k + 1) == Next(cfg, StateAt(cfg, s, es, k), es[k]);
    if k < 6 {
      TailOfFailure(cfg, s, es, c, raw, ids, k + 1);
    }
  }

  lemma LookupStep(cfg: TokenConfig, t: State, e: Event, c: nat, ids: MintIds, i: nat, row: RefreshToken, subj: Subject,
                   claims: AccessClaims)
    requires e.action == Advance(c, ids, 0) && c in t.calls && t.calls[c] == RefreshChecked(i, row, subj)
    requires AccountClaims(t.db, subj) == Ok(claims)
    ensures Next(cfg, t, e) == WithCall(t.(clock := e.now), c, RefreshAuthorized(i, row, subj, claims))
  {
  }

  lemma AuthorizedState(cfg: TokenConfig, s: State, es: seq<Event>, c: nat, raw: Text, ids: MintIds, i: nat,
                        row: RefreshToken,
                        subj: Subject, claims: AccessClaims)
    requires Alone(es, c, raw, ids)
    requires StateAt(cfg, s, es, 3) == Moved(s, raw, c, RefreshChecked(i, row, subj), es[2].now)
    requires AccountClaims(s.db, subj) == Ok(claims)
    ensures StateAt(cfg, s, es, 4) == Moved(s, raw, c, RefreshAuthorized(i, row, subj, claims), es[3].now)
  {
    LookupStep(cfg, StateAt(cfg, s, es, 3), es[3], c, ids, i, row, subj, claims);
    assert StateAt(cfg, s, es, 4) == Next(cfg, StateAt(cfg, s, es, 3), es[3]);
  }

  /** From the accepted check on: lookup and insert. */
  lemma MintedState(cfg: TokenConfig, s: State, es: seq<Event>, c: nat, raw: Text, ids: MintIds, i: nat, subj: Subject,
                    claims: AccessClaims)
    requires Alone(es, c, raw, ids) && i < |s.db.refresh| == |s.info|
    requires StateAt(cfg, s, es, 3) == Moved(s, raw, c, RefreshChecked(i, s.db.refresh[i], subj), es[2].now)
    requires AccountClaims(s.db, subj) == Ok(claims) && !HasRefreshId(s.db.refresh, ids.rowId)
    ensures var t := StateAt(cfg, s, es, 5);
            && t.db == s.db.(refresh := s.db.refresh + [NewRow(cfg, subj, ids, es[4].now)])
            && |t.info| == |s.info| + 1
            && c in t.calls && t.calls[c] == RefreshMinted(i, s.db.refresh[i], |s.db.refresh|,
                                                           NewSession(cfg, claims, ids, es[4].now))
  {
    AuthorizedState(cfg, s, es, c, raw, ids, i, s.db.refresh[i], subj, claims);
    assert StateAt(cfg, s, es, 5) == Next(cfg, StateAt(cfg, s, es, 4), es[4]);
  }

  lemma RotatedState(cfg: TokenConfig, s: State, es: seq<Event>, c: nat, raw: Text, ids: MintIds,
                     i: nat, row: RefreshToken, n: nat, session: Session)
    requires Alone(es, c, raw, ids)
    requires var t := StateAt(cfg, s, es, 5);
             && c in t.calls && t.calls[c] == RefreshMinted(i, row, n, session)
             && i < |t.info| && n < |t.info| && RevokeAffects(t.db.refresh, row.id)
    ensures var before, t := StateAt(cfg, s, es, 5).db, StateAt(cfg, s, es, 6);
            && t.db == before.(refresh := RevokeById(before.refresh, row.id, None, es[5].now))
            && c in t.calls && t.calls[c] == RefreshWon(i, n, session)
  {
    assert StateAt(cfg, s, es, 6) == Next(cfg, StateAt(cfg, s, es, 5), es[5]);
  }

  /** Revoke and return. */
  lemma WonState(cfg: TokenConfig, s: State, es: seq<Event>, c: nat, raw: Text, ids: MintIds,
                 i: nat, row: RefreshToken, n: nat, session: Session)
    requires Alone(es, c, raw, ids)
    requires var t := StateAt(cfg, s, es, 5);
             && c in t.calls && t.calls[c] == RefreshMinted(i, row, n, session)
             && i < |t.info| && n < |t.info| && RevokeAffects(t.db.refresh, row.id)
    ensures var before, t := StateAt(cfg, s, es, 5).db, StateAt(cfg, s, es, 7);
            && t.db == before.(refresh := RevokeById(before.refresh, row.id, None, es[5].now))
            && c in t.calls && t.calls[c] == RefreshDone(i, n, session)
  {
    RotatedState(cfg, s, es, c, raw, ids, i, row, n, session);
    assert StateAt(cfg, s, es, 7) == Next(cfg, StateAt(cfg, s, es, 6), es[6]);
  }

  lemma SecondHalf(cfg: TokenConfig, s: State, es: seq<Event>, c: nat, raw: Text, ids: MintIds, i: nat, subj: Subject,
                   claims: AccessClaims)
    requires Alone(es, c, raw, ids) && i < |s.db.refresh| == |s.info| && s.db.refresh[i].revokedAt.None?
    requires StateAt(cfg, s, es, 3) == Moved(s, raw, c, RefreshChecked(i, s.db.refresh[i], subj), es[2].now)
    requires AccountClaims(s.db, subj) == Ok(claims) && !HasRefreshId(s.db.refresh, ids.rowId)
    ensures var rows := s.db.refresh + [NewRow(cfg, subj, ids, es[4].now)];
            var t := StateAt(cfg, s, es, 7);
            && t.db == s.db.(refresh := RevokeById(rows, s.db.refresh[i].id, None, es[5].now))
            && c in t.calls && t.calls[c] == RefreshDone(i, |s.db.refresh|, NewSession(cfg, claims, ids, es[4].now))
  {
    assert Revocable((s.db.refresh + [NewRow(cfg, subj, ids, es[4].now)])[i], s.db.refresh[i].id);
    MintedState(cfg, s, es, c, raw, ids, i, subj, claims);
    WonState(cfg, s, es, c, raw, ids, i, s.db.refresh[i], |s.db.refresh|, NewSession(cfg, claims, ids, es[4].now));
  }

  /** The sequential operation in the case that reaches the mint. */
  lemma RefreshThatMints(cfg: TokenConfig, db: Tables, raw: Text, ids: MintIds, i: nat, subj: Subject,
                         claims: AccessClaims,
                         checkedAt: Time, mintedAt: Time, revokedAt: Time)
    requires FindRefresh(db.refresh, Sha256(raw)) == Some(i) && i < |db.refresh| && !HasRefreshId(db.refresh, ids.rowId)
    requires RefreshCheck(db.refresh[i], checkedAt) == Ok(subj) && AccountClaims(db, subj) == Ok(claims)
    ensures var rows := db.refresh + [NewRow(cfg, subj, ids, mintedAt)];
            Refresh(cfg, db, raw, ids, checkedAt, mintedAt, revokedAt) ==
            (db.(refresh := RevokeById(rows, db.refresh[i].id, None, revokedAt)),
             Ok(NewSession(cfg, claims, ids, mintedAt)))
  {
    var rows := db.refresh + [NewRow(cfg, subj, ids, mintedAt)];
    assert Revocable(rows[i], db.refresh[i].id);
  }

  /** A refresh that runs without interference does to the tables, and returns, exactly what the
      sequential operation does at the clock readings of its steps. */
  lemma SoloRefreshIsRefresh(cfg: TokenConfig, s: State, es: seq<Event>, c: nat, raw: Text, ids: MintIds)
    requires Inv(s) && Alone(es, c, raw, ids)
    ensures var at := FindRefresh(s.db.refresh, Sha256(raw));
            var replay := at.Some? && var row := s.db.refresh[at.value];
                                      row.revokedAt.Some? || row.expiresAt <= es[2].now;
            var (db, r) := Refresh(cfg, s.db, raw, ids, es[2].now, es[4].now, if replay then es[3].now else es[5].now);
            var t := StateAt(cfg, s, es, 7);
            t.db == db && c in t.calls && Outcome(t.calls[c]) == r
  {
    FirstHalf(cfg, s, es, c, raw, ids);
    var at := FindRefresh(s.db.refresh, Sha256(raw));
    if at.None? {
      TailOfFailure(cfg, s, es, c, raw, ids, 3);
    } else {
      var checked := RefreshCheck(s.db.refresh[at.value], es[2].now);
      if checked.Err? {
        FailedCheck(cfg, s, es, c, raw, ids, at.value);
      } else {
        var claims := AccountClaims(s.db, checked.value);
        if claims.Err? {
          FailedLookup(cfg, s, es, c, raw, ids, at.value, checked.value);
        } else if HasRefreshId(s.db.refresh, ids.rowId) {
          FailedInsert(cfg, s, es, c, raw, ids, at.value, checked.value, claims.value);
        } else {
          SecondHalf(cfg, s, es, c, raw, ids, at.value, checked.value, claims.value);
          RefreshThatMints(cfg, s.db, raw, ids, at.value, checked.value, claims.value, es[2].now, es[4].now, es[5].now);
        }
      }
    }
  }

  lemma FailedCheck(cfg: TokenConfig, s: State, es: seq<Event>, c: nat, raw: Text, ids: MintIds, i: nat)
    requires Alone(es, c, raw, ids) && FindRefresh(s.db.refresh, Sha256(raw)) == Some(i) && i < |s.db.refresh|
    requires RefreshCheck(s.db.refresh[i], es[2].now).Err?
    ensures var checked := RefreshCheck(s.db.refresh[i], es[2].now);
            var t := StateAt(cfg, s, es, 7);
            && c in t.calls && t.calls[c] == Failed(checked.error, None)
            && t.db == if checked == Err(TokenRevoked)
                       then s.db.(refresh := RevokeBySubject(s.db.refresh, s.db.refresh[i].Owner(), es[3].now))
                       else s.db
  {
    FirstHalf(cfg, s, es, c, raw, ids);
    assert StateAt(cfg, s, es, 4) == Next(cfg, StateAt(cfg, s, es, 3), es[3]);
    TailOfFailure(cfg, s, es, c, raw, ids, 4);
  }

  lemma FailedLookup(cfg: TokenConfig, s: State, es: seq<Event>, c: nat, raw: Text, ids: MintIds, i: nat, subj: Subject)
    requires Alone(es, c, raw, ids) && FindRefresh(s.db.refresh, Sha256(raw)) == Some(i) && i < |s.db.refresh|
    requires RefreshCheck(s.db.refresh[i], es[2].now) == Ok(subj) && AccountClaims(s.db, subj).Err?
    ensures var t := StateAt(cfg, s, es, 7);
            t.db == s.db && c in t.calls && t.calls[c] == Failed(AccountClaims(s.db, subj).error, None)
  {
    FirstHalf(cfg, s, es, c, raw, ids);
    assert StateAt(cfg, s, es, 4) == Next(cfg, StateAt(cfg, s, es, 3), es[3]);
    TailOfFailure(cfg, s, es, c, raw, ids, 4);
  }

  lemma FailedInsert(cfg: TokenConfig, s: State, es: seq<Event>, c: nat, raw: Text, ids: MintIds, i: nat, subj: Subject,
                     claims: AccessClaims)
    requires Alone(es, c, raw, ids) && FindRefresh(s.db.refresh, Sha256(raw)) == Some(i) && i < |s.db.refresh|
    requires RefreshCheck(s.db.refresh[i], es[2].now) == Ok(subj) && AccountClaims(s.db, subj) == Ok(claims)
    requires HasRefreshId(s.db.refresh, ids.rowId)
    ensures var t := StateAt(cfg, s, es, 7); t.db == s.db && c in t.calls && t.calls[c] == Failed(Internal, None)
  {
    FirstHalf(cfg, s, es, c, raw, ids);
    AuthorizedState(cfg, s, es, c, raw, ids, i, s.db.refresh[i], subj, claims);
    assert StateAt(cfg, s, es, 5) == Next(cfg, StateAt(cfg, s, es, 4), es[4]);
    TailOfFailure(cfg, s, es, c, raw, ids, 5);
  }
}
