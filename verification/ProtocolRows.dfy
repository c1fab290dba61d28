/** Which call made which row, when, and for how long the access token handed out with it lives. */
module ProtocolRows {
  import opened Domain
  import opened AccessTokens
  import opened Store
  import opened Flows
  import opened Protocol
  import opened ProtocolInvariants
  import opened ProtocolSteps
  import opened ProtocolTheorems

  predicate Minting(call: Call) {
    call.LoginReady? || call.RefreshAuthorized?
  }

  lemma StepAddsRows(cfg: TokenConfig, s: State, c: nat, call: Call, ids: MintIds, salt: nat, now: Time)
    ensures var t := Step(cfg, s, c, call, ids, salt, now);
            if Minting(call) && !HasRefreshId(s.db.refresh, ids.rowId)
            then t.db.refresh == s.db.refresh + [NewRow(cfg, call.subj, ids, now)] else |t.db.refresh| == |s.db.refresh|
  {
  }

  /** Only the two minting steps add a row. */
  lemma EventAddsRows(cfg: TokenConfig, s: State, e: Event)
    requires Enabled(s, e) && |Next(cfg, s, e).db.refresh| > |s.db.refresh|
    ensures e.action.Advance? && e.action.c in s.calls && Minting(s.calls[e.action.c])
    ensures Next(cfg, s, e).db.refresh == s.db.refresh + [NewRow(cfg, s.calls[e.action.c].subj, e.action.ids, e.now)]
  {
    if e.action.Advance? {
      StepAddsRows(cfg, s.(clock := e.now), e.action.c, s.calls[e.action.c], e.action.ids, e.action.salt, e.now);
    }
  }

  lemma StepMovesOnly(cfg: TokenConfig, s: State, c: nat, call: Call, ids: MintIds, salt: nat, now: Time, d: nat)
    requires d != c
    ensures var t := Step(cfg, s, c, call, ids, salt, now);
            (d in t.calls <==> d in s.calls) && (d in t.calls ==> t.calls[d] == s.calls[d])
  {
  }

  // ---- Every row is named by the call that made it ----

  /** The row that a call has inserted. */
  function RowOf(call: Call): Option<nat> {
    match call
    case LoginMinted(row, _) => Some(row)
    case LoginDone(row, _) => Some(row)
    case RefreshMinted(_, _, row, _) => Some(row)
    case RefreshWon(_, row, _) => Some(row)
    case RefreshDone(_, row, _) => Some(row)
    case Failed(_, stray) => stray
    case _ => None
  }

  ghost predicate RowNamed(s: State, i: nat)
    requires i < |s.info|
  {
    s.info[i].creator in s.calls && RowOf(s.calls[s.info[i].creator]) == Some(i)
  }

  ghost predicate RowsNamed(s: State) {
    forall i :: 0 <= i < |s.info| ==> RowNamed(s, i)
  }

  /** A step of a call, or its failure, does not forget the row it made. */
  lemma StepKeepsRow(cfg: TokenConfig, s: State, c: nat, ids: MintIds, salt: nat, now: Time)
    requires c in s.calls && RowOf(s.calls[c]).Some?
    ensures var t := Step(cfg, s, c, s.calls[c], ids, salt, now); c in t.calls && RowOf(t.calls[c]) == RowOf(s.calls[c])
    ensures !Final(s.calls[c]) ==> RowOf(Failure(s.calls[c])) == RowOf(s.calls[c])
  {
  }

  lemma EventKeepsRow(cfg: TokenConfig, s: State, e: Event, c: nat)
    requires Enabled(s, e) && c in s.calls && RowOf(s.calls[c]).Some?
    ensures c in Next(cfg, s, e).calls && RowOf(Next(cfg, s, e).calls[c]) == RowOf(s.calls[c])
  {
    if e.action.Advance? {
      if c == e.action.c {
        StepKeepsRow(cfg, s.(clock := e.now), c, e.action.ids, e.action.salt, e.now);
      } else {
        StepMovesOnly(cfg, s.(clock := e.now), e.action.c, s.calls[e.action.c], e.action.ids, e.action.salt, e.now, c);
      }
    } else if e.action == Fail(c) {
      StepKeepsRow(cfg, s, c, MintIds(Empty, Empty, Empty), 0, e.now);
    }
  }

  lemma MintNamesRow(cfg: TokenConfig, s: State, c: nat, call: Call, ids: MintIds, salt: nat, now: Time)
    requires Minting(call) && !HasRefreshId(s.db.refresh, ids.rowId)
    ensures var t := Step(cfg, s, c, call, ids, salt, now);
            && |t.info| == |s.info| + 1 && t.info[|s.info|].creator == c
            && c in t.calls && RowOf(t.calls[c]) == Some(|s.db.refresh|)
  {
  }

  lemma NamedKeeps(cfg: TokenConfig, s: State, e: Event, t: State)
    requires Inv(s) && Enabled(s, e) && RowsNamed(s) && t == Next(cfg, s, e)
    ensures RowsNamed(t)
  {
    EventKeeps(cfg, s, e);
    forall i | 0 <= i < |t.info|
      ensures RowNamed(t, i)
    {
      if i < |s.info| {
        assert RowNamed(s, i);
        assert RowGrows(s.db.refresh[i], s.info[i], t.db.refresh[i], t.info[i], Actor(e.action));
        EventKeepsRow(cfg, s, e, s.info[i].creator);
      } else {
        EventAddsRows(cfg, s, e);
        StepAddsRows(cfg, s.(clock := e.now), e.action.c, s.calls[e.action.c], e.action.ids, e.action.salt, e.now);
        MintNamesRow(cfg, s.(clock := e.now), e.action.c, s.calls[e.action.c], e.action.ids, e.action.salt, e.now);
      }
    }
  }

  lemma {:induction false} RunNamesRows(cfg: TokenConfig, s: State, es: seq<Event>, n: nat)
    requires n <= |es| && Inv(s) && RowsNamed(s) && ValidRun(cfg, s, es, n)
    ensures RowsNamed(StateAt(cfg, s, es, n))
  {
    if n > 0 {
      RunNamesRows(cfg, s, es, n - 1);
      RunKeeps(cfg, s, es, n - 1);
      NamedKeeps(cfg, StateAt(cfg, s, es, n - 1), es[n - 1], StateAt(cfg, s, es, n));
    }
  }

  /** A call that failed after its insert, wherever that was, names the row it left; with
      StrayRowStaysSecret, that row is never disclosed. */
  lemma FailureNamesItsRow(cfg: TokenConfig, s: State, es: seq<Event>, c: nat, i: nat)
    requires FromInit(cfg, s, es)
    requires var t := End(cfg, s, es); c in t.calls && t.calls[c].Failed? && i < |t.info| && t.info[i].creator == c
    ensures End(cfg, s, es).calls[c].stray == Some(i)
    ensures !End(cfg, s, es).info[i].disclosed
  {
    RunNamesRows(cfg, s, es, |es|);
    assert RowNamed(End(cfg, s, es), i);
    StrayRowStaysSecret(cfg, s, es, c, i);
  }

  // ---- When rows were made, and how long the access tokens made with them live ----

  ghost predicate MadeBy(rows: seq<RefreshToken>, now: Time) {
    forall i :: 0 <= i < |rows| ==> rows[i].issuedAt <= now
  }

  predicate HasSession(call: Call) {
    call.LoginMinted? || call.LoginDone? || call.RefreshMinted? || call.RefreshWon? || call.RefreshDone?
  }

  /** The access token of a call's session expires one lifetime after its row was made. */
  predicate CallTimed(cfg: TokenConfig, rows: seq<RefreshToken>, call: Call) {
    HasSession(call) ==>
      && call.row < |rows| && call.session.access.Jwt?
      && call.session.access.claims.exp == Some(Unix(rows[call.row].issuedAt + cfg.accessTTL))
  }

  ghost predicate Timed(cfg: TokenConfig, s: State) {
    MadeBy(s.db.refresh, s.clock) && forall c :: c in s.calls ==> CallTimed(cfg, s.db.refresh, s.calls[c])
  }

  /** Rows keep the time they were made. */
  ghost predicate SameTimes(a: seq<RefreshToken>, b: seq<RefreshToken>) {
    |a| <= |b| && forall i :: 0 <= i < |a| ==> b[i].issuedAt == a[i].issuedAt
  }

  lemma GrownTimes(s: State, t: State, c: int)
    requires StateGrows(s, t, c)
    ensures SameTimes(s.db.refresh, t.db.refresh)
  {
    forall i | 0 <= i < |s.db.refresh|
      ensures t.db.refresh[i].issuedAt == s.db.refresh[i].issuedAt
    {
      assert RowGrows(s.db.refresh[i], s.info[i], t.db.refresh[i], t.info[i], c);
    }
  }

  lemma AddedTimes(cfg: TokenConfig, rows: seq<RefreshToken>, rows': seq<RefreshToken>, subj: Subject, ids: MintIds,
                   madeBy: Time, now: Time)
    requires SameTimes(rows, rows') && MadeBy(rows, madeBy) && madeBy <= now
    requires |rows'| > |rows| ==> rows' == rows + [NewRow(cfg, subj, ids, now)]
    ensures MadeBy(rows', now)
  {
  }

  lemma EventKeepsTimes(cfg: TokenConfig, s: State, e: Event, t: State)
    requires Inv(s) && Enabled(s, e) && MadeBy(s.db.refresh, s.clock) && t == Next(cfg, s, e)
    ensures SameTimes(s.db.refresh, t.db.refresh) && MadeBy(t.db.refresh, e.now)
  {
    EventKeeps(cfg, s, e);
    GrownTimes(s, t, Actor(e.action));
    if |t.db.refresh| > |s.db.refresh| {
      EventAddsRows(cfg, s, e);
      AddedTimes(cfg, s.db.refresh, t.db.refresh, s.calls[e.action.c].subj, e.action.ids, s.clock, e.now);
    } else {
      AddedTimes(cfg, s.db.refresh, t.db.refresh, ZERO_SUBJECT, MintIds(Empty, Empty, Empty), s.clock, e.now);
    }
  }

  lemma ClockIsEvent(cfg: TokenConfig, s: State, e: Event)
    ensures Next(cfg, s, e).clock == e.now
  {
  }

  /** The steps that carry a session on, or make one. */
  lemma LoginTimed(cfg: TokenConfig, s: State, c: nat, call: Call, ids: MintIds, now: Time)
    requires c in s.calls && s.calls[c] == call && CallTimed(cfg, s.db.refresh, call)
    ensures var t := LoginStep(cfg, s, c, call, ids, now); c in t.calls && CallTimed(cfg, t.db.refresh, t.calls[c])
  {
  }

  lemma RefreshTimed(cfg: TokenConfig, s: State, c: nat, call: Call, ids: MintIds, now: Time)
    requires c in s.calls && s.calls[c] == call && CallTimed(cfg, s.db.refresh, call)
    requires SameTimes(s.db.refresh, RefreshStep(cfg, s, c, call, ids, now).db.refresh)
    ensures var t := RefreshStep(cfg, s, c, call, ids, now); c in t.calls && CallTimed(cfg, t.db.refresh, t.calls[c])
  {
  }

  lemma StepTimed(cfg: TokenConfig, s: State, c: nat, call: Call, ids: MintIds, salt: nat, now: Time)
    requires c in s.calls && s.calls[c] == call && CallTimed(cfg, s.db.refresh, call)
    requires var t := Step(cfg, s, c, call, ids, salt, now); SameTimes(s.db.refresh, t.db.refresh)
    ensures var t := Step(cfg, s, c, call, ids, salt, now); c in t.calls && CallTimed(cfg, t.db.refresh, t.calls[c])
  {
    if IsLogin(call) {
      LoginTimed(cfg, s, c, call, ids, now);
    } else if !IsLogout(call) && !IsReset(call) {
      RefreshTimed(cfg, s, c, call, ids, now);
    }
  }

  lemma StaysTimed(cfg: TokenConfig, rows: seq<RefreshToken>, rows': seq<RefreshToken>, call: Call)
    requires SameTimes(rows, rows') && CallTimed(cfg, rows, call)
    ensures CallTimed(cfg, rows', call)
  {
  }

  lemma CallsTimed(cfg: TokenConfig, s: State, e: Event, t: State, c: nat)
    requires Inv(s) && Enabled(s, e) && Timed(cfg, s) && t == Next(cfg, s, e)
    requires SameTimes(s.db.refresh, t.db.refresh) && c in t.calls
    ensures CallTimed(cfg, t.db.refresh, t.calls[c])
  {
    if c in s.calls && t.calls[c] == s.calls[c] {
      StaysTimed(cfg, s.db.refresh, t.db.refresh, s.calls[c]);
    } else if e.action.Advance? {
      var s1 := s.(clock := e.now);
      if c == e.action.c {
        StepTimed(cfg, s1, c, s.calls[c], e.action.ids, e.action.salt, e.now);
      } else {
        StepMovesOnly(cfg, s1, e.action.c, s.calls[e.action.c], e.action.ids, e.action.salt, e.now, c);
      }
    } else if e.action.Fail? {
      assert !HasSession(Failure(s.calls[e.action.c]));
    }
  }

  lemma TimedKeeps(cfg: TokenConfig, s: State, e: Event, t: State)
    requires Inv(s) && Enabled(s, e) && Timed(cfg, s) && t == Next(cfg, s, e)
    ensures Timed(cfg, t)
  {
    EventKeepsTimes(cfg, s, e, t);
    ClockIsEvent(cfg, s, e);
    forall c | c in t.calls
      ensures CallTimed(cfg, t.db.refresh, t.calls[c])
    {
      CallsTimed(cfg, s, e, t, c);
    }
  }

  lemma {:induction false} RunTimed(cfg: TokenConfig, s: State, es: seq<Event>, n: nat, t: State)
    requires n <= |es| && Inv(s) && Timed(cfg, s) && ValidRun(cfg, s, es, n) && t == StateAt(cfg, s, es, n)
    ensures Timed(cfg, t)
    decreases n
  {
    if n > 0 {
      var before := StateAt(cfg, s, es, n - 1);
      RunTimed(cfg, s, es, n - 1, before);
      RunKeeps(cfg, s, es, n - 1);
      TimedKeeps(cfg, before, es[n - 1], t);
    }
  }

  // ---- After a force-logout the access tokens run out ----

  /** The counted rows of `subj` made after the cut descend from logins after the cut, revoked or not. */
  ghost predicate NewRowsNewLogins(s: State, subj: Subject, cut: nat) {
    && |s.info| == |s.db.refresh|
    && forall i :: cut <= i < |s.info| && s.db.refresh[i].Owner() == subj && s.info[i].held ==> s.info[i].root >= cut
  }

  lemma NewRowsKeep(cfg: TokenConfig, s: State, e: Event, t: State, subj: Subject, cut: nat)
    requires Inv(s) && Enabled(s, e) && t == Next(cfg, s, e) && cut <= |s.db.refresh| && OnlyLaterLogins(s, subj, cut)
    requires NewRowsNewLogins(s, subj, cut)
    ensures NewRowsNewLogins(t, subj, cut)
  {
    EventKeeps(cfg, s, e);
    forall i | cut <= i < |t.info| && t.db.refresh[i].Owner() == subj && t.info[i].held
      ensures t.info[i].root >= cut
    {
      if i < |s.info| {
        assert RowGrows(s.db.refresh[i], s.info[i], t.db.refresh[i], t.info[i], Actor(e.action));
        if !s.info[i].held {
          NewlyHeld(cfg, s, e, i);
        }
      } else {
        NewRowHeld(cfg, s, e, i);
      }
    }
  }

  lemma {:induction false} NewRowsHold(cfg: TokenConfig, s: State, es: seq<Event>, n: nat, subj: Subject, cut: nat)
    requires n <= |es| && Inv(s) && ValidRun(cfg, s, es, n) && cut <= |s.db.refresh|
    requires OnlyLaterLogins(s, subj, cut) && NewRowsNewLogins(s, subj, cut)
    ensures NewRowsNewLogins(StateAt(cfg, s, es, n), subj, cut)
  {
    if n > 0 {
      NewRowsHold(cfg, s, es, n - 1, subj, cut);
      RunIsLater(cfg, s, es, n - 1);
      CutHolds(cfg, s, es, n - 1, subj, cut);
      NewRowsKeep(cfg, StateAt(cfg, s, es, n - 1), es[n - 1], StateAt(cfg, s, es, n), subj, cut);
    }
  }

  lemma UnixGrows(a: Time, b: Time)
    requires a <= b
    ensures Unix(a) <= Unix(b) && Unix(b) * SECOND <= b
  {
  }

  /** Call `c` handed a session of `subj` out, along a login whose row is below the cut. */
  ghost predicate HandedOutBelow(t: State, c: nat, subj: Subject, cut: nat) {
    && c in t.calls && (t.calls[c].LoginDone? || t.calls[c].RefreshDone?)
    && t.calls[c].row < |t.info| && t.calls[c].row < |t.db.refresh|
    && t.db.refresh[t.calls[c].row].Owner() == subj && t.info[t.calls[c].row].root < cut
  }

  lemma HandedOutIsCounted(t: State, c: nat, subj: Subject, cut: nat)
    requires Inv(t) && NewRowsNewLogins(t, subj, cut)
    ensures HandedOutBelow(t, c, subj, cut) ==> t.calls[c].row < cut
  {
    if HandedOutBelow(t, c, subj, cut) {
      assert CallOk(t, c, t.calls[c]);
    }
  }

  /** An access token handed out along an earlier login belongs to a row made before the step. */
  lemma EarlierLoginEarlierRow(cfg: TokenConfig, s: State, e: Event, subj: Subject, es: seq<Event>, c: nat)
    requires Inv(s) && Enabled(s, e) && RevokesSubject(s, e, subj) && Canonical(subj)
    requires ValidRun(cfg, Next(cfg, s, e), es, |es|)
    ensures var t := End(cfg, Next(cfg, s, e), es);
            HandedOutBelow(t, c, subj, |s.db.refresh|) ==> t.calls[c].row < |s.db.refresh|
  {
    var s1 := Next(cfg, s, e);
    EventKeeps(cfg, s, e);
    RevocationCuts(cfg, s, e, subj);
    RunKeeps(cfg, s1, es, |es|);
    NewRowsHold(cfg, s1, es, |es|, subj, |s.db.refresh|);
    HandedOutIsCounted(End(cfg, s1, es), c, subj, |s.db.refresh|);
  }

  /** The row of such a token was made by the time of the step. */
  lemma EarlierRowEarlierTime(cfg: TokenConfig, s: State, e: Event, es: seq<Event>, row: nat)
    requires Inv(s) && Timed(cfg, s) && Enabled(s, e) && ValidRun(cfg, Next(cfg, s, e), es, |es|)
    requires row < |s.db.refresh|
    ensures var t := End(cfg, Next(cfg, s, e), es); row < |t.db.refresh| && t.db.refresh[row].issuedAt <= e.now
  {
    var s1 := Next(cfg, s, e);
    EventKeeps(cfg, s, e);
    EventKeepsTimes(cfg, s, e, s1);
    RunIsLater(cfg, s1, es, |es|);
    var t := End(cfg, s1, es);
    assert RowLater(s1.db.refresh[row], s1.info[row], t.db.refresh[row], t.info[row]);
  }

  /** An access token whose row was made by a time has run out one lifetime later. */
  lemma RunsOut(cfg: TokenConfig, rows: seq<RefreshToken>, call: Call, madeBy: Time,
                m: RevokedSet, audience: string, parsedAt: Time, queriedAt: Time)
    requires HasSession(call) && CallTimed(cfg, rows, call) && rows[call.row].issuedAt <= madeBy
    ensures var access := call.session.access;
            && access.claims.exp.Some? && access.claims.exp.value <= Unix(madeBy + cfg.accessTTL)
            && (parsedAt >= madeBy + cfg.accessTTL ==>
                  !VerifyAccess(cfg, m, access, audience, parsedAt, queriedAt).Accepted())
  {
    UnixGrows(rows[call.row].issuedAt + cfg.accessTTL, madeBy + cfg.accessTTL);
  }

  /** Revoking a subject bounds its access tokens too: one that was handed out along an earlier login, before
      or after the step, expires at most one lifetime after the step, and is refused from then on. */
  lemma AccessTokensRunOut(cfg: TokenConfig, s: State, e: Event, subj: Subject, es: seq<Event>, c: nat,
                           m: RevokedSet, audience: string, parsedAt: Time, queriedAt: Time)
    requires Inv(s) && Timed(cfg, s) && Enabled(s, e) && RevokesSubject(s, e, subj) && Canonical(subj)
    requires ValidRun(cfg, Next(cfg, s, e), es, |es|)
    ensures var t := End(cfg, Next(cfg, s, e), es);
            HandedOutBelow(t, c, subj, |s.db.refresh|) ==>
              var access := t.calls[c].session.access;
              && access.Jwt? && access.claims.exp.Some? && access.claims.exp.value <= Unix(e.now + cfg.accessTTL)
              && (parsedAt >= e.now + cfg.accessTTL ==>
                    !VerifyAccess(cfg, m, access, audience, parsedAt, queriedAt).Accepted())
  {
    var s1 := Next(cfg, s, e);
    var t := End(cfg, s1, es);
    EarlierLoginEarlierRow(cfg, s, e, subj, es, c);
    if HandedOutBelow(t, c, subj, |s.db.refresh|) {
      EventKeeps(cfg, s, e);
      TimedKeeps(cfg, s, e, s1);
      RunTimed(cfg, s1, es, |es|, t);
      EarlierRowEarlierTime(cfg, s, e, es, t.calls[c].row);
      RunsOut(cfg, t.db.refresh, t.calls[c], e.now, m, audience, parsedAt, queriedAt);
    }
  }

  /** Every reachable state is timed. */
  lemma ReachableTimed(cfg: TokenConfig, s: State, es: seq<Event>)
    requires FromInit(cfg, s, es)
    ensures Inv(End(cfg, s, es)) && Timed(cfg, End(cfg, s, es))
  {
    Reachable(cfg, s, es);
    RunTimed(cfg, s, es, |es|, End(cfg, s, es));
  }
}
