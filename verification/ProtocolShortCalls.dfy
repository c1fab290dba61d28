/** The short calls of the step protocol: logins past their checks, logouts, and requests of a reset. Run by
    themselves they are the operations of the service; a logout also reaches its row through any interleaving. */
module ProtocolShortCalls {
  import opened Domain
  import opened AccessTokens
  import opened Store
  import opened Flows
  import opened Protocol
  import opened ProtocolInvariants
  import opened ProtocolSteps
  import opened ProtocolTheorems
  import opened ProtocolRows
  import P = Plain

  // ---- Without interference ----

  /** A start and two steps of call `c`. */
  ghost predicate AloneShort(es: seq<Event>, c: nat, start: Action, ids: MintIds) {
    && |es| == 3 && es[0].action == start
    && forall k :: 1 <= k < 3 ==> es[k].action == Advance(c, ids, 0)
  }

  lemma ThreeStates(cfg: TokenConfig, s: State, es: seq<Event>)
    requires |es| == 3
    ensures StateAt(cfg, s, es, 3) == Next(cfg, Next(cfg, Next(cfg, s, es[0]), es[1]), es[2])
  {
    assert StateAt(cfg, s, es, 1) == Next(cfg, StateAt(cfg, s, es, 0), es[0]);
    assert StateAt(cfg, s, es, 2) == Next(cfg, StateAt(cfg, s, es, 1), es[1]);
  }

  lemma LoginMints(cfg: TokenConfig, s: State, e: Event, c: nat, subj: Subject, claims: AccessClaims, ids: MintIds)
    requires e.action == Advance(c, ids, 0) && c in s.calls && s.calls[c] == LoginReady(subj, claims)
    ensures var (db, r) := Mint(cfg, s.db, claims, subj, ids, e.now);
            var t := Next(cfg, s, e);
            && t.db == db && c in t.calls
            && t.calls[c] == if r.Ok? then LoginMinted(|s.db.refresh|, r.value) else Failed(r.error, None)
  {
  }

  lemma LoginEnds(cfg: TokenConfig, s: State, e: Event, c: nat, ids: MintIds)
    requires e.action == Advance(c, ids, 0) && c in s.calls && (s.calls[c].LoginMinted? || s.calls[c].Failed?)
    ensures var call, t := s.calls[c], Next(cfg, s, e);
            && t.db == s.db && c in t.calls
            && t.calls[c] == if call.LoginMinted? then LoginDone(call.row, call.session) else call
  {
  }

  /** A login by itself mints as the service does, at the time of its first step. */
  lemma SoloLoginIsMint(cfg: TokenConfig, s: State, es: seq<Event>, c: nat, subj: Subject, claims: AccessClaims,
                        ids: MintIds)
    requires AloneShort(es, c, StartLogin(c, subj, claims), ids)
    ensures var (db, r) := Mint(cfg, s.db, claims, subj, ids, es[1].now);
            var t := StateAt(cfg, s, es, 3);
            && t.db == db && c in t.calls
            && t.calls[c] == if r.Ok? then LoginDone(|s.db.refresh|, r.value) else Failed(r.error, None)
  {
    ThreeStates(cfg, s, es);
    var started := Next(cfg, s, es[0]);
    LoginMints(cfg, started, es[1], c, subj, claims, ids);
    LoginEnds(cfg, Next(cfg, started, es[1]), es[2], c, ids);
  }

  lemma LogoutLooksUp(cfg: TokenConfig, s: State, e: Event, c: nat, raw: Text, ids: MintIds)
    requires e.action == Advance(c, ids, 0) && c in s.calls && s.calls[c] == LogoutStart(raw)
    ensures var at, t := FindRefresh(s.db.refresh, Sha256(raw)), Next(cfg, s, e);
            && t.db == s.db && c in t.calls
            && t.calls[c] == if raw == Empty || at.None? then LogoutDone else LogoutRead(s.db.refresh[at.value])
  {
  }

  lemma LogoutEnds(cfg: TokenConfig, s: State, e: Event, c: nat, ids: MintIds)
    requires e.action == Advance(c, ids, 0) && c in s.calls && (s.calls[c].LogoutRead? || s.calls[c].LogoutDone?)
    ensures var call, t := s.calls[c], Next(cfg, s, e);
            && c in t.calls && t.calls[c] == LogoutDone
            && t.db == if call.LogoutDone? then s.db
                       else s.db.(refresh := RevokeById(s.db.refresh, call.existing.id, None, e.now))
  {
  }

  /** A logout by itself revokes as the service does, at the time of its last step. */
  lemma SoloLogoutIsLogout(cfg: TokenConfig, s: State, es: seq<Event>, c: nat, raw: Text, ids: MintIds)
    requires AloneShort(es, c, StartLogout(c, raw), ids)
    ensures var t := StateAt(cfg, s, es, 3);
            && t.db == Logout(s.db, raw, Empty, 0, es[2].now)
            && c in t.calls && t.calls[c] == LogoutDone
  {
    ThreeStates(cfg, s, es);
    var started := Next(cfg, s, es[0]);
    LogoutLooksUp(cfg, started, es[1], c, raw, ids);
    LogoutEnds(cfg, Next(cfg, started, es[1]), es[2], c, ids);
  }

  /** A request is the request of the service. */
  lemma RequestIsRequest(cfg: TokenConfig, s: State, e: Event)
    requires e.action.RequestReset?
    ensures Next(cfg, s, e).db == RequestPasswordReset(s.db, e.action.email, e.action.id, e.action.raw, e.now).0
  {
  }

  // ---- Failing statements ----

  /** What call `c` has become. */
  ghost predicate NowIs(s: State, c: nat, call: Call) {
    c in s.calls && s.calls[c] == call
  }

  /** A failure of the store tells a caller nothing new: a failed lookup of a token or an account ends its
      call just as an unknown one does, a replay is refused whether or not its revocation went through, and
      a logout ends the same way in every case. Any other failure is internal. */
  lemma FailuresAreQuiet(cfg: TokenConfig, s: State, c: nat, call: Call, ids: MintIds, salt: nat, now: Time)
    ensures var t := Step(cfg, s, c, call, ids, salt, now);
            && (call.RefreshStart? && P.NoTokenRow(s.db, call.raw) ==> NowIs(t, c, Failure(call)))
            && (call.ResetStart? && P.NoResetRow(s.db, call.token.core) && !BlankReset(call) ==>
                  NowIs(t, c, Failure(call)))
            && (call.RefreshChecked? && AccountClaims(s.db, call.subj).Err? ==> NowIs(t, c, Failure(call)))
            && (call.RefreshReplay? || call.LogoutRead? ==> NowIs(t, c, Failure(call)))
            && (call.LogoutStart? ==> Failure(call) == LogoutDone)
    ensures !AnswersQuietly(call) && !Final(call) ==> Failure(call).Failed? && Failure(call).error == Internal
  {
  }

  predicate BlankReset(call: Call)
    requires call.ResetStart?
  {
    call.token.core == Empty || call.password == ""
  }

  /** The calls whose next statement is a lookup by token or by account, a replay's revocation, or part of a logout. */
  predicate AnswersQuietly(call: Call) {
    call.RefreshStart? || call.ResetStart? || call.RefreshChecked? || call.RefreshReplay? || IsLogout(call)
  }

  // ---- A logout among other calls ----

  /** The event is no step and no failure of call `c`. */
  predicate NotOf(e: Event, c: nat) {
    (e.action.Advance? || e.action.Fail?) ==> e.action.c != c
  }

  lemma OtherEventKeepsCall(cfg: TokenConfig, s: State, e: Event, c: nat)
    requires Enabled(s, e) && NotOf(e, c) && c in s.calls
    ensures var t := Next(cfg, s, e); c in t.calls && t.calls[c] == s.calls[c]
  {
    if e.action.Advance? {
      StepMovesOnly(cfg, s.(clock := e.now), e.action.c, s.calls[e.action.c], e.action.ids, e.action.salt, e.now, c);
    }
  }

  lemma {:induction false} OtherEventsKeepCall(cfg: TokenConfig, s: State, es: seq<Event>, m: nat, n: nat, c: nat,
                                               call: Call)
    requires m <= n <= |es| && ValidRun(cfg, s, es, n)
    requires forall k :: m <= k < n ==> NotOf(es[k], c)
    requires c in StateAt(cfg, s, es, m).calls && StateAt(cfg, s, es, m).calls[c] == call
    ensures c in StateAt(cfg, s, es, n).calls && StateAt(cfg, s, es, n).calls[c] == call
    decreases n
  {
    if m < n {
      OtherEventsKeepCall(cfg, s, es, m, n - 1, c, call);
      OtherEventKeepsCall(cfg, StateAt(cfg, s, es, n - 1), es[n - 1], c);
    }
  }

  lemma {:induction false} LaterBetween(cfg: TokenConfig, s: State, es: seq<Event>, m: nat, n: nat, a: State)
    requires m <= n <= |es| && Inv(s) && ValidRun(cfg, s, es, n) && a == StateAt(cfg, s, es, m)
    ensures Inv(StateAt(cfg, s, es, n)) && Later(a, StateAt(cfg, s, es, n))
    decreases n
  {
    if m == n {
      RunKeeps(cfg, s, es, n);
      NothingIsLater(a);
    } else {
      LaterBetween(cfg, s, es, m, n - 1, a);
      LaterNext(cfg, a, StateAt(cfg, s, es, n - 1), es[n - 1], StateAt(cfg, s, es, n));
    }
  }

  lemma LogoutReads(cfg: TokenConfig, s: State, e: Event, c: nat, raw: Text, i: nat)
    requires e.action.Advance? && e.action.c == c && c in s.calls && s.calls[c] == LogoutStart(raw) && raw != Empty
    requires P.TokenRow(s.db, raw, i)
    ensures var t := Next(cfg, s, e);
            c in t.calls && t.calls[c] == LogoutRead(s.db.refresh[i]) && t.db == s.db && t.info == s.info
  {
    P.TokenRowIsFound(s.db, raw, i);
  }

  lemma LogoutRevokesRow(s: State, t: State, i: nat, existing: RefreshToken, now: Time)
    requires Inv(s) && i < |s.info| && SameRow(existing, s.db.refresh[i])
    requires t.db.refresh == RevokeById(s.db.refresh, existing.id, None, now) && t.info == s.info
    ensures |t.db.refresh| == |s.db.refresh| == |t.info|
    ensures forall j :: 0 <= j < |s.db.refresh| && j != i ==> t.db.refresh[j] == s.db.refresh[j]
    ensures t.db.refresh[i].revokedAt ==
            if s.db.refresh[i].revokedAt.Some? then s.db.refresh[i].revokedAt else Some(now)
    ensures s.db.refresh[i].revokedAt.None? ==> t.info[i].rotatedBy.None?
  {
    assert RowOk(s.db.refresh, s.info, s.presented, i);
    RevokedExactly(s.db.refresh, s.info, s.presented, i, existing, now);
  }

  lemma LogoutSteps(cfg: TokenConfig, s: State, e: Event, c: nat, existing: RefreshToken)
    requires e.action.Advance? && e.action.c == c && c in s.calls && s.calls[c] == LogoutRead(existing)
    ensures var t := Next(cfg, s, e);
            t.db.refresh == RevokeById(s.db.refresh, existing.id, None, e.now) && t.info == s.info
  {
  }

  /** A logout that is not cut short revokes the row it read, whatever other calls do in between, and the row
      stays revoked. If nothing had revoked it before, no refresh that presents it ever returns a session. */
  lemma LogoutReachesItsRow(cfg: TokenConfig, s: State, es: seq<Event>, m: nat, c: nat, raw: Text, i: nat)
    requires Inv(s) && ValidRun(cfg, s, es, |es|) && 0 < m < |es|
    requires c in s.calls && s.calls[c] == LogoutStart(raw) && raw != Empty && P.TokenRow(s.db, raw, i)
    requires es[0].action.Advance? && es[0].action.c == c && es[m].action.Advance? && es[m].action.c == c
    requires forall k :: 0 < k < m ==> NotOf(es[k], c)
    ensures var before, t := StateAt(cfg, s, es, m), End(cfg, s, es);
            && i < |before.db.refresh| <= |t.db.refresh|
            && t.db.refresh[i].revokedAt ==
               (if before.db.refresh[i].revokedAt.Some? then before.db.refresh[i].revokedAt else Some(es[m].now))
            && (before.db.refresh[i].revokedAt.None? ==>
                  forall d :: d in t.calls ==> !RotatedFrom(t.calls[d], i))
  {
    var first, before, after, t :=
      StateAt(cfg, s, es, 1), StateAt(cfg, s, es, m), StateAt(cfg, s, es, m + 1), End(cfg, s, es);
    PrefixValid(cfg, s, es, m, |es|);
    assert first == Next(cfg, StateAt(cfg, s, es, 0), es[0]);
    LogoutReads(cfg, s, es[0], c, raw, i);
    OtherEventsKeepCall(cfg, s, es, 1, m, c, LogoutRead(s.db.refresh[i]));
    LaterBetween(cfg, s, es, 1, m, first);
    assert RowLater(first.db.refresh[i], first.info[i], before.db.refresh[i], before.info[i]);
    LogoutSteps(cfg, before, es[m], c, s.db.refresh[i]);
    LogoutRevokesRow(before, after, i, s.db.refresh[i], es[m].now);
    RevokedBetween(cfg, s, es, m + 1, i, after, t);
  }

  lemma RevokedBetween(cfg: TokenConfig, s: State, es: seq<Event>, m: nat, i: nat, a: State, t: State)
    requires m <= |es| && Inv(s) && ValidRun(cfg, s, es, |es|)
    requires a == StateAt(cfg, s, es, m) && t == StateAt(cfg, s, es, |es|)
    requires i < |a.db.refresh| == |a.info| && a.db.refresh[i].revokedAt.Some?
    ensures i < |a.db.refresh| <= |t.db.refresh| && t.db.refresh[i].revokedAt == a.db.refresh[i].revokedAt
    ensures a.info[i].rotatedBy.None? ==> forall d :: d in t.calls ==> !RotatedFrom(t.calls[d], i)
  {
    LaterBetween(cfg, s, es, m, |es|, a);
    assert RowLater(a.db.refresh[i], a.info[i], t.db.refresh[i], t.info[i]);
    if a.info[i].rotatedBy.None? {
      forall d | d in t.calls
        ensures !RotatedFrom(t.calls[d], i)
      {
        assert CallOk(t, d, t.calls[d]);
      }
    }
  }
}
