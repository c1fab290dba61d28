/** What holds over every run of the protocol, in every interleaving of any number of calls. */
module ProtocolTheorems {
  import opened Domain
  import opened AccessTokens
  import opened Store
  import opened Flows
  import opened Protocol
  import opened ProtocolInvariants
  import opened ProtocolSteps

  ghost predicate FromInit(cfg: TokenConfig, s: State, es: seq<Event>) {
    Init(s) && ValidRun(cfg, s, es, |es|)
  }

  ghost function End(cfg: TokenConfig, s: State, es: seq<Event>): State {
    StateAt(cfg, s, es, |es|)
  }

  lemma Reachable(cfg: TokenConfig, s: State, es: seq<Event>)
    requires FromInit(cfg, s, es)
    ensures Inv(End(cfg, s, es))
  {
    RunKeeps(cfg, s, es, |es|);
  }

  lemma {:induction false} PrefixValid(cfg: TokenConfig, s: State, es: seq<Event>, m: nat, n: nat)
    requires m <= n <= |es| && ValidRun(cfg, s, es, n)
    ensures ValidRun(cfg, s, es, m)
    decreases n
  {
    if m < n {
      PrefixValid(cfg, s, es, m, n - 1);
    }
  }

  // ---- One live token per login ----

  /** In every reachable state, of two rows that descend from one login at most one is both
      disclosed and unrevoked. */
  lemma OneLiveTokenPerLogin(cfg: TokenConfig, s: State, es: seq<Event>, i: nat, j: nat)
    requires FromInit(cfg, s, es)
    requires var t := End(cfg, s, es); i < j < |t.db.refresh| == |t.info| && t.info[i].root == t.info[j].root
    ensures var t := End(cfg, s, es);
            !(&& t.info[i].disclosed && t.db.refresh[i].revokedAt.None?
              && t.info[j].disclosed && t.db.refresh[j].revokedAt.None?)
  {
    var t := End(cfg, s, es);
    Reachable(cfg, s, es);
    assert RowOk(t.db.refresh, t.info, t.presented, i) && RowOk(t.db.refresh, t.info, t.presented, j);
    assert PairOk(t.db.refresh[i], t.info[i], t.db.refresh[j], t.info[j]);
  }

  lemma WinnerRevokesPresentedRow(cfg: TokenConfig, s: State, c: nat, ids: MintIds, now: Time, i: nat)
    requires Inv(s) && c in s.calls && s.calls[c].RefreshMinted? && i < |s.info|
    requires s.calls[c].from < |s.info| && s.db.refresh[s.calls[c].from].revokedAt.None?
    ensures var t := Step(cfg, s, c, s.calls[c], ids, 0, now);
            && t.calls == s.calls[c := RefreshWon(s.calls[c].from, s.calls[c].row, s.calls[c].session)]
            && |t.info| == |t.db.refresh| == |s.info| && t.db.refresh[s.calls[c].from].revokedAt.Some?
            && (i != s.calls[c].from ==> t.db.refresh[i] == s.db.refresh[i]) && t.info[i].root == s.info[i].root
  {
    var x := s.calls[c];
    assert CallOk(s, c, x);
    RevokedExactly(s.db.refresh, s.info, s.presented, x.from, x.existing, now);
  }

  lemma LoserFails(cfg: TokenConfig, s: State, d: nat, ids: MintIds, now: Time)
    requires Inv(s) && d in s.calls && s.calls[d].RefreshMinted?
    requires s.calls[d].from < |s.info| && s.db.refresh[s.calls[d].from].revokedAt.Some?
    ensures Step(cfg, s, d, s.calls[d], ids, 0, now)
            == s.(calls := s.calls[d := Failed(NotFound, Some(s.calls[d].row))])
    ensures s.calls[d].row < |s.info| && !s.info[s.calls[d].row].disclosed
  {
    var y := s.calls[d];
    assert CallOk(s, d, y);
    RevokedExactly(s.db.refresh, s.info, s.presented, y.from, y.existing, now);
    assert RowOk(s.db.refresh, s.info, s.presented, y.row);
  }

  /** Two refreshes of one row have made different rows of its login, and neither is the row itself. */
  lemma TwoSuccessors(s: State, c: nat, d: nat)
    requires Inv(s) && c != d && c in s.calls && d in s.calls
    requires s.calls[c].RefreshMinted? && s.calls[d].RefreshMinted? && s.calls[c].from == s.calls[d].from
    ensures var a, b, from := s.calls[c].row, s.calls[d].row, s.calls[c].from;
            && a < |s.info| && b < |s.info| && from < |s.info|
            && a != b && a != from && b != from && s.info[a].root == s.info[b].root
  {
    assert CallOk(s, c, s.calls[c]) && CallOk(s, d, s.calls[d]);
  }

  /** The disclosure matters: when two refreshes of one live row have both inserted their new rows, the
      one that revokes first wins, the other fails, and two unrevoked rows of one login are left. */
  lemma LoserLeavesUnrevokedRow(cfg: TokenConfig, s: State, c: nat, d: nat, ids: MintIds, now: Time, a: nat, b: nat)
    requires Inv(s) && c != d && c in s.calls && d in s.calls
    requires s.calls[c].RefreshMinted? && s.calls[d].RefreshMinted? && s.calls[c].from == s.calls[d].from < |s.info|
    requires a == s.calls[c].row < |s.info| && b == s.calls[d].row < |s.info|
    requires s.db.refresh[s.calls[c].from].revokedAt.None? && s.db.refresh[a].revokedAt.None?
    requires s.db.refresh[b].revokedAt.None?
    ensures var t := Step(cfg, Step(cfg, s, c, s.calls[c], ids, 0, now), d, s.calls[d], ids, 0, now);
            && c in t.calls && t.calls[c].RefreshWon? && d in t.calls && t.calls[d] == Failed(NotFound, Some(b))
            && |t.info| == |t.db.refresh| == |s.info| && a != b && t.info[a].root == t.info[b].root
            && t.db.refresh[a].revokedAt.None? && t.db.refresh[b].revokedAt.None? && !t.info[b].disclosed
  {
    TwoSuccessors(s, c, d);
    WinnerRevokesPresentedRow(cfg, s, c, ids, now, a);
    WinnerRevokesPresentedRow(cfg, s, c, ids, now, b);
    RotateStepKeeps(cfg, s, c, ids, now);
    LoserFails(cfg, Step(cfg, s, c, s.calls[c], ids, 0, now), d, ids, now);
  }

  // ---- What later states keep of earlier ones ----

  /** Rows never disappear, change owner or login, or become unrevoked. */
  ghost predicate Later(s: State, t: State) {
    && |s.db.refresh| == |s.info| <= |t.db.refresh| == |t.info|
    && forall i :: 0 <= i < |s.db.refresh| ==> RowLater(s.db.refresh[i], s.info[i], t.db.refresh[i], t.info[i])
  }

  predicate RowLater(a: RefreshToken, m: RowInfo, b: RefreshToken, n: RowInfo) {
    && SameRow(a, b) && n.root == m.root && n.creator == m.creator
    && (m.held ==> n.held) && (m.disclosed ==> n.disclosed)
    && (m.rotatedBy.Some? || a.revokedAt.Some? ==> n.rotatedBy == m.rotatedBy)
  }

  lemma LaterStep(s: State, t: State, u: State, c: int)
    requires Later(s, t) && StateGrows(t, u, c)
    ensures Later(s, u)
  {
    forall i | 0 <= i < |s.db.refresh|
      ensures RowLater(s.db.refresh[i], s.info[i], u.db.refresh[i], u.info[i])
    {
      assert RowLater(s.db.refresh[i], s.info[i], t.db.refresh[i], t.info[i]);
      assert RowGrows(t.db.refresh[i], t.info[i], u.db.refresh[i], u.info[i], c);
    }
  }

  lemma LaterNext(cfg: TokenConfig, s: State, t: State, e: Event, u: State)
    requires Inv(t) && Enabled(t, e) && u == Next(cfg, t, e) && Later(s, t)
    ensures Inv(u) && Later(s, u)
  {
    EventKeeps(cfg, t, e);
    LaterStep(s, t, u, Actor(e.action));
  }

  lemma NothingIsLater(s: State)
    requires Inv(s)
    ensures Later(s, s)
  {
  }

  lemma {:induction false} RunIsLater(cfg: TokenConfig, s: State, es: seq<Event>, n: nat)
    requires n <= |es| && Inv(s) && ValidRun(cfg, s, es, n)
    ensures Inv(StateAt(cfg, s, es, n)) && Later(s, StateAt(cfg, s, es, n))
  {
    if n == 0 {
      NothingIsLater(s);
    } else {
      RunIsLater(cfg, s, es, n - 1);
      LaterNext(cfg, s, StateAt(cfg, s, es, n - 1), es[n - 1], StateAt(cfg, s, es, n));
    }
  }

  /** A revoked row is never active again, and keeps the time it was revoked. */
  lemma RevokedForever(cfg: TokenConfig, s: State, es: seq<Event>, i: nat, now: Time)
    requires Inv(s) && ValidRun(cfg, s, es, |es|) && i < |s.db.refresh| && s.db.refresh[i].revokedAt.Some?
    ensures var t := End(cfg, s, es);
            && i < |t.db.refresh| && t.db.refresh[i].revokedAt == s.db.refresh[i].revokedAt
            && !t.db.refresh[i].IsActive(now)
  {
    RunIsLater(cfg, s, es, |es|);
  }

  // ---- A token is rotated at most once ----

  predicate RotatedFrom(call: Call, from: nat) {
    (call.RefreshWon? || call.RefreshDone?) && call.from == from
  }

  /** Of all the refreshes that present one token, in any interleaving, at most one returns a session. */
  lemma RotationSucceedsOnce(cfg: TokenConfig, s: State, es: seq<Event>, c: nat, d: nat, from: nat)
    requires FromInit(cfg, s, es)
    requires var t := End(cfg, s, es);
             c in t.calls && d in t.calls && RotatedFrom(t.calls[c], from) && RotatedFrom(t.calls[d], from)
    ensures c == d
  {
    Reachable(cfg, s, es);
    var t := End(cfg, s, es);
    assert CallOk(t, c, t.calls[c]) && CallOk(t, d, t.calls[d]);
  }

  /** Once a row is revoked by anything but a rotation, no refresh that presents it ever returns a session. */
  lemma NoRotationAfterRevocation(cfg: TokenConfig, s: State, es: seq<Event>, from: nat, c: nat)
    requires Inv(s) && ValidRun(cfg, s, es, |es|)
    requires from < |s.info| && s.db.refresh[from].revokedAt.Some? && s.info[from].rotatedBy.None?
    requires var t := End(cfg, s, es); c in t.calls
    ensures !RotatedFrom(End(cfg, s, es).calls[c], from)
  {
    RunIsLater(cfg, s, es, |es|);
    var t := End(cfg, s, es);
    assert CallOk(t, c, t.calls[c]);
    assert RowLater(s.db.refresh[from], s.info[from], t.db.refresh[from], t.info[from]);
  }

  /** A logout that finds its row unrevoked is such a revocation, and so is a revocation by subject. */
  lemma LogoutIsNoRotation(s: State, c: nat, i: nat, now: Time)
    requires Inv(s) && c in s.calls && s.calls[c].LogoutRead? && i < |s.info|
    requires s.db.refresh[i].id == s.calls[c].existing.id && s.db.refresh[i].revokedAt.None?
    ensures var t := LogoutStep(s, c, s.calls[c], now);
            t.db.refresh[i].revokedAt == Some(now) && t.info[i].rotatedBy.None?
  {
    assert RowOk(s.db.refresh, s.info, s.presented, i);
  }

  lemma ForceLogoutIsNoRotation(s: State, subj: Subject, i: nat, now: Time)
    requires Inv(s) && Canonical(subj) && i < |s.info| && s.db.refresh[i].Owner() == subj
    requires s.db.refresh[i].revokedAt.None?
    ensures var t := RevokeOwned(s, subj, now);
            t.db.refresh[i].revokedAt == Some(now) && t.info[i].rotatedBy.None?
  {
    assert RowOk(s.db.refresh, s.info, s.presented, i);
    OwnedByIsOwner(s.db.refresh[i], subj);
  }

  // ---- Force-logout ----

  /** The steps that revoke all refresh tokens of a subject: an explicit force-logout, a replayed
      refresh, and the last statement of a password reset. */
  ghost predicate RevokesSubject(s: State, e: Event, subj: Subject) {
    match e.action
    case ForceLogout(sj) => sj == subj
    case Advance(c, _, _) =>
      && c in s.calls
      && (s.calls[c] == RefreshReplay(subj) || (s.calls[c].ResetWritten? && s.calls[c].subj == subj))
    case _ => false
  }

  /** The held, unrevoked rows of `subj` all descend from a login row at position `cut` or later. */
  ghost predicate OnlyLaterLogins(s: State, subj: Subject, cut: nat) {
    && |s.info| == |s.db.refresh|
    && forall i :: 0 <= i < |s.info| && s.db.refresh[i].Owner() == subj && LiveHeld(s.db.refresh[i], s.info[i]) ==>
         s.info[i].root >= cut
  }

  lemma RevocationRevokes(cfg: TokenConfig, s: State, e: Event, subj: Subject)
    requires Enabled(s, e) && RevokesSubject(s, e, subj)
    ensures var t := Next(cfg, s, e);
            t.db.refresh == RevokeBySubject(s.db.refresh, subj, e.now) && t.info == s.info
  {
  }

  lemma RevokedMeansCut(s: State, t: State, subj: Subject, now: Time)
    requires Inv(s) && Canonical(subj)
    requires t.db.refresh == RevokeBySubject(s.db.refresh, subj, now) && t.info == s.info
    ensures |t.db.refresh| == |s.db.refresh|
    ensures RevokedBelow(t, subj, |s.db.refresh|) && OnlyLaterLogins(t, subj, |s.db.refresh|)
  {
    RevokeOwnedIsComplete(s, subj, now);
  }

  lemma RevocationCuts(cfg: TokenConfig, s: State, e: Event, subj: Subject)
    requires Inv(s) && Enabled(s, e) && RevokesSubject(s, e, subj) && Canonical(subj)
    ensures var t := Next(cfg, s, e);
            && |t.db.refresh| == |s.db.refresh|
            && RevokedBelow(t, subj, |s.db.refresh|) && OnlyLaterLogins(t, subj, |s.db.refresh|)
  {
    RevocationRevokes(cfg, s, e, subj);
    RevokedMeansCut(s, Next(cfg, s, e), subj, e.now);
  }

  /** A held row of the subject that is new to the state either starts a login or continues one that
      was still live. */
  lemma CutKeeps(cfg: TokenConfig, s: State, e: Event, subj: Subject, cut: nat)
    requires Inv(s) && Enabled(s, e) && cut <= |s.db.refresh| && OnlyLaterLogins(s, subj, cut)
    ensures OnlyLaterLogins(Next(cfg, s, e), subj, cut)
  {
    EventKeeps(cfg, s, e);
    var t := Next(cfg, s, e);
    forall i | 0 <= i < |t.info| && t.db.refresh[i].Owner() == subj && LiveHeld(t.db.refresh[i], t.info[i])
      ensures t.info[i].root >= cut
    {
      if i < |s.info| {
        assert RowGrows(s.db.refresh[i], s.info[i], t.db.refresh[i], t.info[i], Actor(e.action));
        if !s.info[i].held {
          NewlyHeld(cfg, s, e, i);
        }
      } else {
        NewRowHeld(cfg, s, e, i);
      }
    }
  }

  /** Only a login inserts a row that counts at once, and it starts its own lineage. */
  lemma StepAddsHeld(cfg: TokenConfig, s: State, c: nat, call: Call, ids: MintIds, salt: nat, now: Time, i: nat)
    requires |s.info| == |s.db.refresh|
    requires var t := Step(cfg, s, c, call, ids, salt, now); |s.info| <= i < |t.info| && t.info[i].held
    ensures Step(cfg, s, c, call, ids, salt, now).info[i].root == i
  {
  }

  lemma NewRowHeld(cfg: TokenConfig, s: State, e: Event, i: nat)
    requires Inv(s) && Enabled(s, e)
    requires var t := Next(cfg, s, e); |s.info| <= i < |t.info| && t.info[i].held
    ensures Next(cfg, s, e).info[i].root == i
  {
    if e.action.Advance? {
      StepAddsHeld(cfg, s.(clock := e.now), e.action.c, s.calls[e.action.c], e.action.ids, e.action.salt, e.now, i);
    }
  }

  /** Only the revocation of the presented row makes an existing row count. */
  lemma StepEarns(cfg: TokenConfig, s: State, c: nat, call: Call, ids: MintIds, salt: nat, now: Time, i: nat)
    requires i < |s.info| && !s.info[i].held
    requires var t := Step(cfg, s, c, call, ids, salt, now); i < |t.info| && t.info[i].held
    ensures call.RefreshMinted? && call.row == i && RevokeAffects(s.db.refresh, call.existing.id)
  {
  }

  /** A row comes to count only by the revocation of a live row of the same login and owner. */
  lemma NewlyHeld(cfg: TokenConfig, s: State, e: Event, i: nat)
    requires Inv(s) && Enabled(s, e) && i < |s.info| && !s.info[i].held
    requires var t := Next(cfg, s, e); i < |t.info| && t.info[i].held
    ensures exists from :: 0 <= from < |s.info| && LiveHeld(s.db.refresh[from], s.info[from]) &&
                           s.info[from].root == s.info[i].root && s.db.refresh[from].Owner() == s.db.refresh[i].Owner()
  {
    var c := e.action.c;
    var call := s.calls[c];
    StepEarns(cfg, s.(clock := e.now), c, call, e.action.ids, e.action.salt, e.now, i);
    assert CallOk(s, c, call);
    RevokedExactly(s.db.refresh, s.info, s.presented, call.from, call.existing, e.now);
  }

  lemma CutNext(cfg: TokenConfig, s: State, e: Event, t: State, subj: Subject, cut: nat)
    requires Inv(s) && Enabled(s, e) && t == Next(cfg, s, e) && cut <= |s.db.refresh| && OnlyLaterLogins(s, subj, cut)
    ensures Inv(t) && cut <= |t.db.refresh| && OnlyLaterLogins(t, subj, cut)
  {
    EventKeeps(cfg, s, e);
    CutKeeps(cfg, s, e, subj, cut);
  }

  lemma {:induction false} CutHoldsAt(cfg: TokenConfig, s: State, es: seq<Event>, n: nat, t: State, subj: Subject,
                                      cut: nat)
    requires n <= |es| && Inv(s) && ValidRun(cfg, s, es, n) && cut <= |s.db.refresh| && OnlyLaterLogins(s, subj, cut)
    requires t == StateAt(cfg, s, es, n)
    ensures Inv(t) && cut <= |t.db.refresh| && OnlyLaterLogins(t, subj, cut)
  {
    if n > 0 {
      var before := StateAt(cfg, s, es, n - 1);
      CutHoldsAt(cfg, s, es, n - 1, before, subj, cut);
      CutNext(cfg, before, es[n - 1], t, subj, cut);
    }
  }

  lemma CutHolds(cfg: TokenConfig, s: State, es: seq<Event>, n: nat, subj: Subject, cut: nat)
    requires n <= |es| && Inv(s) && ValidRun(cfg, s, es, n) && cut <= |s.db.refresh| && OnlyLaterLogins(s, subj, cut)
    ensures OnlyLaterLogins(StateAt(cfg, s, es, n), subj, cut)
  {
    CutHoldsAt(cfg, s, es, n, StateAt(cfg, s, es, n), subj, cut);
  }

  /** Force-logout is complete: whatever is in flight when all tokens of a subject are revoked, in every
      later state a disclosed and unrevoked token of the subject descends from a login whose row was
      created after that step. */
  lemma ForceLogoutIsComplete(cfg: TokenConfig, s: State, e: Event, subj: Subject, es: seq<Event>, i: nat)
    requires Inv(s) && Enabled(s, e) && RevokesSubject(s, e, subj) && Canonical(subj)
    requires ValidRun(cfg, Next(cfg, s, e), es, |es|)
    requires var t := End(cfg, Next(cfg, s, e), es);
             && i < |t.info| && i < |t.db.refresh| && t.info[i].disclosed
             && t.db.refresh[i].revokedAt.None? && t.db.refresh[i].Owner() == subj
    ensures End(cfg, Next(cfg, s, e), es).info[i].root >= |s.db.refresh|
  {
    var s1 := Next(cfg, s, e);
    EventKeeps(cfg, s, e);
    RevocationCuts(cfg, s, e, subj);
    RunIsLater(cfg, s1, es, |es|);
    CutHolds(cfg, s1, es, |es|, subj, |s.db.refresh|);
    var t := End(cfg, s1, es);
    assert RowOk(t.db.refresh, t.info, t.presented, i);
  }

  /** The owner of a row survives the step and all that follows. */
  lemma OwnerSurvives(cfg: TokenConfig, s: State, e: Event, es: seq<Event>, i: nat)
    requires Inv(s) && Enabled(s, e) && ValidRun(cfg, Next(cfg, s, e), es, |es|) && i < |s.db.refresh|
    ensures var t := End(cfg, Next(cfg, s, e), es);
            && i < |t.db.refresh| == |t.info|
            && t.db.refresh[i].Owner() == s.db.refresh[i].Owner() && t.info[i].root <= i
  {
    var s1 := Next(cfg, s, e);
    EventKeeps(cfg, s, e);
    RunIsLater(cfg, s1, es, |es|);
    var t := End(cfg, s1, es);
    assert RowGrows(s.db.refresh[i], s.info[i], s1.db.refresh[i], s1.info[i], Actor(e.action));
    assert RowLater(s1.db.refresh[i], s1.info[i], t.db.refresh[i], t.info[i]);
    assert RowOk(t.db.refresh, t.info, t.presented, i);
  }

  /** A refresh that presents a token of the subject issued before that step, started before or after
      it, either fails or ends with a row that is revoked too. */
  lemma InFlightRefreshIsCutOff(cfg: TokenConfig, s: State, e: Event, subj: Subject, es: seq<Event>, c: nat)
    requires Inv(s) && Enabled(s, e) && RevokesSubject(s, e, subj) && Canonical(subj)
    requires ValidRun(cfg, Next(cfg, s, e), es, |es|)
    requires var t := End(cfg, Next(cfg, s, e), es);
             && c in t.calls && t.calls[c].RefreshDone?
             && t.calls[c].from < |s.db.refresh| && s.db.refresh[t.calls[c].from].Owner() == subj
    ensures var t := End(cfg, Next(cfg, s, e), es);
            t.calls[c].row < |t.db.refresh| && t.db.refresh[t.calls[c].row].revokedAt.Some?
  {
    var s1 := Next(cfg, s, e);
    EventKeeps(cfg, s, e);
    RevocationCuts(cfg, s, e, subj);
    RunKeeps(cfg, s1, es, |es|);
    CutHolds(cfg, s1, es, |es|, subj, |s.db.refresh|);
    var t := End(cfg, s1, es);
    var from, row := t.calls[c].from, t.calls[c].row;
    assert CallOk(t, c, t.calls[c]);
    OwnerSurvives(cfg, s, e, es, from);
  }

  // ---- Rows that nobody received ----

  /** Whatever a call inserted before it failed is never disclosed: the row of a refresh that lost its row,
      of one that failed before or after its revocation went through, of a login whose answer was lost. */
  lemma StrayRowStaysSecret(cfg: TokenConfig, s: State, es: seq<Event>, c: nat, row: nat)
    requires FromInit(cfg, s, es)
    requires var t := End(cfg, s, es); c in t.calls && t.calls[c].Failed? && t.calls[c].stray == Some(row)
    ensures var t := End(cfg, s, es); row < |t.info| && t.info[row].creator == c && !t.info[row].disclosed
  {
    Reachable(cfg, s, es);
    var t := End(cfg, s, es);
    assert CallOk(t, c, t.calls[c]);
  }

  // ---- Owner and claims along a chain ----

  /** Every row has exactly one owner id, and the owner is that of the login it descends from. */
  lemma OwnersSurvive(cfg: TokenConfig, s: State, es: seq<Event>, i: nat)
    requires FromInit(cfg, s, es) && i < |End(cfg, s, es).db.refresh|
    ensures var t := End(cfg, s, es);
            && i < |t.info| && t.info[i].root <= i && t.info[t.info[i].root].root == t.info[i].root
            && OneOwner(t.db.refresh[i]) && t.db.refresh[i].Owner() == t.db.refresh[t.info[i].root].Owner()
  {
    Reachable(cfg, s, es);
    var t := End(cfg, s, es);
    assert RowOk(t.db.refresh, t.info, t.presented, i);
  }

  /** A session names, by id and kind, the owner of the login at the head of its chain, however many
      refreshes lie between. */
  lemma SessionsNameTheirLogin(cfg: TokenConfig, s: State, es: seq<Event>, c: nat)
    requires FromInit(cfg, s, es)
    requires var t := End(cfg, s, es); c in t.calls && (t.calls[c].LoginDone? || t.calls[c].RefreshDone?)
    ensures var t := End(cfg, s, es);
            && t.calls[c].row < |t.info| && t.info[t.calls[c].row].root < |t.db.refresh|
            && var owner := t.db.refresh[t.info[t.calls[c].row].root].Owner();
            && t.calls[c].session.access.Jwt?
            && t.calls[c].session.access.claims.sub == Some(owner.ID())
            && t.calls[c].session.access.claims.typ == Some(if owner.kind == KindAdmin then TypAdmin else TypUser)
  {
    Reachable(cfg, s, es);
    var t := End(cfg, s, es);
    assert CallOk(t, c, t.calls[c]);
    assert RowOk(t.db.refresh, t.info, t.presented, t.calls[c].row);
  }

  // ---- Password resets ----

  /** A reset record changes a password at most once, in any interleaving; the one change is made by the
      call whose own MarkUsed flipped the record, for the subject named when the reset was requested. */
  lemma ResetWritesOnce(cfg: TokenConfig, s: State, es: seq<Event>, v: nat, w: nat)
    requires FromInit(cfg, s, es)
    requires v < |End(cfg, s, es).writes| && w < |End(cfg, s, es).writes|
    ensures var t := End(cfg, s, es);
            && (t.writes[v].reset == t.writes[w].reset ==> v == w)
            && t.writes[v].reset < |t.resetInfo| == |t.db.resets|
            && t.db.resets[t.writes[v].reset].usedAt.Some?
            && t.resetInfo[t.writes[v].reset].markedBy == Some(t.writes[v].writer)
            && t.writes[v].subj == t.resetInfo[t.writes[v].reset].requestedFor == t.db.resets[t.writes[v].reset].Owner()
  {
    Reachable(cfg, s, es);
    var t := End(cfg, s, es);
    assert WriteOk(t, t.writes[v]);
    assert ResetOk(t.db.resets[t.writes[v].reset], t.resetInfo[t.writes[v].reset]);
    if v < w {
      assert t.writes[v].reset != t.writes[w].reset;
    } else if w < v {
      assert t.writes[w].reset != t.writes[v].reset;
    }
  }

  /** A reset that returned without error has changed the password of its subject, and at every later
      time all refresh rows of that subject that existed at its last step are revoked. */
  lemma FinishedResetLoggedOut(cfg: TokenConfig, s: State, es: seq<Event>, c: nat)
    requires FromInit(cfg, s, es)
    requires var t := End(cfg, s, es); c in t.calls && t.calls[c].ResetDone?
    ensures var t := End(cfg, s, es);
            && WroteFor(t, c, t.calls[c].reset, t.calls[c].subj)
            && RevokedBelow(t, t.calls[c].subj, t.calls[c].rows)
  {
    Reachable(cfg, s, es);
    var t := End(cfg, s, es);
    assert CallOk(t, c, t.calls[c]);
  }
}
