/** What the access token of a finished call says, under any interleaving: a refresh speaks for the account
    as it read it, a login for the account it was started with. */
module ProtocolClaims {
  import opened Domain
  import opened AccessTokens
  import opened Store
  import opened Flows
  import opened AccountFlows
  import opened Protocol
  import opened ProtocolInvariants
  import opened ProtocolSteps
  import opened ProtocolTheorems
  import opened ProtocolRows

  /** Event `k` is the account lookup of refresh `c`, and this is what it read. */
  ghost predicate LookedUp(cfg: TokenConfig, s: State, es: seq<Event>, k: nat, c: nat, subj: Subject,
                           claims: AccessClaims) {
    && k < |es| && es[k].action.Advance? && es[k].action.c == c
    && var before := StateAt(cfg, s, es, k);
    && c in before.calls && before.calls[c].RefreshChecked? && before.calls[c].subj == subj
    && AccountClaims(before.db, subj) == Ok(claims)
  }

  ghost predicate StartedWith(es: seq<Event>, k: nat, c: nat, subj: Subject, claims: AccessClaims) {
    k < |es| && es[k].action == StartLogin(c, subj, claims)
  }

  /** Event `m` is the insert of call `c`, and the session is made of these claims at its time. */
  ghost predicate MintedAt(cfg: TokenConfig, es: seq<Event>, m: nat, c: nat, claims: AccessClaims, session: Session) {
    && m < |es| && es[m].action.Advance? && es[m].action.c == c
    && session == NewSession(cfg, claims, es[m].action.ids, es[m].now)
  }

  predicate IsRefreshSession(call: Call) {
    call.RefreshMinted? || call.RefreshWon? || call.RefreshDone?
  }

  predicate IsLoginSession(call: Call) {
    call.LoginMinted? || call.LoginDone?
  }

  // ---- One step back ----

  /** Where a call with claims or a session stood one step of its own before. */
  predicate StepBack(cfg: TokenConfig, s: State, call: Call, next: Call, ids: MintIds, now: Time) {
    && (next.RefreshAuthorized? ==>
          (call.RefreshChecked? && call.subj == next.subj && AccountClaims(s.db, call.subj) == Ok(next.claims)))
    && (IsRefreshSession(next) ==>
          || (call.RefreshAuthorized? && next.session == NewSession(cfg, call.claims, ids, now))
          || (IsRefreshSession(call) && call.session == next.session))
    && (IsLoginSession(next) ==>
          || (call.LoginReady? && next.session == NewSession(cfg, call.claims, ids, now))
          || (IsLoginSession(call) && call.session == next.session))
    && !next.LoginReady?
  }

  /** Final calls do not move: for them `next` is `call`. */
  lemma StepLooksBack(cfg: TokenConfig, s: State, c: nat, ids: MintIds, salt: nat, now: Time)
    requires c in s.calls && !(Final(s.calls[c]))
    ensures var t := Step(cfg, s, c, s.calls[c], ids, salt, now);
            c in t.calls && StepBack(cfg, s, s.calls[c], t.calls[c], ids, now)
  {
  }

  /** An event either leaves a call where it is, starts it, fails it, or is its own next step. */
  lemma EventLooksBack(cfg: TokenConfig, s: State, e: Event, c: nat)
    requires Enabled(s, e) && c in Next(cfg, s, e).calls
    ensures var next := Next(cfg, s, e).calls[c];
            || (c in s.calls && s.calls[c] == next)
            || (e.action.StartLogin? && e.action.c == c && next == LoginReady(e.action.subj, e.action.claims))
            || (&& e.action.Advance? && e.action.c == c && c in s.calls
                && StepBack(cfg, s, s.calls[c], next, e.action.ids, e.now))
            || next.RefreshStart? || next.LogoutStart? || next.ResetStart? || next.Failed? || next.LogoutDone?
  {
    if e.action.Advance? {
      var s1 := s.(clock := e.now);
      if c != e.action.c {
        StepMovesOnly(cfg, s1, e.action.c, s.calls[e.action.c], e.action.ids, e.action.salt, e.now, c);
      } else if !Final(s.calls[c]) {
        StepLooksBack(cfg, s1, c, e.action.ids, e.action.salt, e.now);
      }
    }
  }

  // ---- Back to where the claims come from ----

  lemma {:induction false} AuthorizedLookedUp(cfg: TokenConfig, s: State, es: seq<Event>, n: nat,
                                              c: nat) returns (k: nat)
    requires Init(s) && n <= |es| && ValidRun(cfg, s, es, n)
    requires c in StateAt(cfg, s, es, n).calls && StateAt(cfg, s, es, n).calls[c].RefreshAuthorized?
    ensures var call := StateAt(cfg, s, es, n).calls[c]; k < n && LookedUp(cfg, s, es, k, c, call.subj, call.claims)
    decreases n
  {
    var before := StateAt(cfg, s, es, n - 1);
    EventLooksBack(cfg, before, es[n - 1], c);
    if c in before.calls && before.calls[c] == StateAt(cfg, s, es, n).calls[c] {
      k := AuthorizedLookedUp(cfg, s, es, n - 1, c);
    } else {
      k := n - 1;
    }
  }

  lemma {:induction false} SessionLookedUp(cfg: TokenConfig, s: State, es: seq<Event>, n: nat, c: nat)
    returns (k: nat, m: nat, subj: Subject, claims: AccessClaims)
    requires Init(s) && n <= |es| && ValidRun(cfg, s, es, n)
    requires c in StateAt(cfg, s, es, n).calls && IsRefreshSession(StateAt(cfg, s, es, n).calls[c])
    ensures k < m < n && LookedUp(cfg, s, es, k, c, subj, claims)
    ensures MintedAt(cfg, es, m, c, claims, StateAt(cfg, s, es, n).calls[c].session)
    decreases n
  {
    var before := StateAt(cfg, s, es, n - 1);
    EventLooksBack(cfg, before, es[n - 1], c);
    if before.calls[c].RefreshAuthorized? {
      k := AuthorizedLookedUp(cfg, s, es, n - 1, c);
      m, subj, claims := n - 1, before.calls[c].subj, before.calls[c].claims;
    } else {
      k, m, subj, claims := SessionLookedUp(cfg, s, es, n - 1, c);
    }
  }

  lemma {:induction false} ReadyStarted(cfg: TokenConfig, s: State, es: seq<Event>, n: nat, c: nat) returns (k: nat)
    requires Init(s) && n <= |es| && ValidRun(cfg, s, es, n)
    requires c in StateAt(cfg, s, es, n).calls && StateAt(cfg, s, es, n).calls[c].LoginReady?
    ensures var call := StateAt(cfg, s, es, n).calls[c]; k < n && StartedWith(es, k, c, call.subj, call.claims)
    decreases n
  {
    var before := StateAt(cfg, s, es, n - 1);
    EventLooksBack(cfg, before, es[n - 1], c);
    if c in before.calls && before.calls[c] == StateAt(cfg, s, es, n).calls[c] {
      k := ReadyStarted(cfg, s, es, n - 1, c);
    } else {
      k := n - 1;
    }
  }

  lemma {:induction false} SessionStarted(cfg: TokenConfig, s: State, es: seq<Event>, n: nat, c: nat)
    returns (k: nat, m: nat, subj: Subject, claims: AccessClaims)
    requires Init(s) && n <= |es| && ValidRun(cfg, s, es, n)
    requires c in StateAt(cfg, s, es, n).calls && IsLoginSession(StateAt(cfg, s, es, n).calls[c])
    ensures k < m < n && StartedWith(es, k, c, subj, claims)
    ensures MintedAt(cfg, es, m, c, claims, StateAt(cfg, s, es, n).calls[c].session)
    decreases n
  {
    var before := StateAt(cfg, s, es, n - 1);
    EventLooksBack(cfg, before, es[n - 1], c);
    if before.calls[c].LoginReady? {
      k := ReadyStarted(cfg, s, es, n - 1, c);
      m, subj, claims := n - 1, before.calls[c].subj, before.calls[c].claims;
    } else {
      k, m, subj, claims := SessionStarted(cfg, s, es, n - 1, c);
    }
  }

  // ---- What the finished session says ----

  /** Until the session's access token expires, and unrevoked, it verifies to exactly these claims. */
  ghost predicate SaysExactly(cfg: TokenConfig, session: Session, claims: AccessClaims) {
    exists iat :: VerifiesTo(cfg, session, claims, iat)
  }

  ghost predicate VerifiesTo(cfg: TokenConfig, session: Session, claims: AccessClaims, iat: int) {
    var exp := Unix(session.accessExpiresAt);
    forall at: Time :: Live(exp, at) ==>
      Verified(cfg, session, at) == Verdict(Some(claims.(exp := exp, iat := iat, jti := session.jti)), None)
  }

  lemma MintedSays(cfg: TokenConfig, es: seq<Event>, m: nat, c: nat, claims: AccessClaims, session: Session)
    requires MintedAt(cfg, es, m, c, claims, session)
    ensures SaysExactly(cfg, session, claims)
  {
    var exp, iat := Unix(session.accessExpiresAt), Unix(es[m].now);
    forall at: Time | Live(exp, at)
      ensures Verified(cfg, session, at) == Verdict(Some(claims.(exp := exp, iat := iat, jti := session.jti)), None)
    {
      VerifyUndoesMint(cfg, map[], claims, session.jti, es[m].now, "", at, at);
    }
    assert VerifiesTo(cfg, session, claims, iat);
  }

  /** The owner of the login at the head of the chain that a finished call's row belongs to. */
  ghost function LoginOwner(t: State, call: Call): Subject
    requires HasSession(call)
  {
    if call.row < |t.info| && t.info[call.row].root < |t.db.refresh|
    then t.db.refresh[t.info[call.row].root].Owner() else ZERO_SUBJECT
  }

  lemma SameNameSameSubject(a: Subject, b: Subject)
    requires Canonical(a) && Canonical(b) && a.ID() == b.ID() && (a.kind == KindAdmin <==> b.kind == KindAdmin)
    ensures a == b
  {
  }

  /** A subject named by the session of a finished call is the owner of its login. */
  lemma NamedIsOwner(cfg: TokenConfig, s: State, es: seq<Event>, c: nat, subj: Subject, m: nat, claims: AccessClaims)
    requires FromInit(cfg, s, es) && Canonical(subj) && ClaimsFor(subj, claims)
    requires var t := End(cfg, s, es); c in t.calls && (t.calls[c].LoginDone? || t.calls[c].RefreshDone?)
    requires MintedAt(cfg, es, m, c, claims, End(cfg, s, es).calls[c].session)
    ensures subj == LoginOwner(End(cfg, s, es), End(cfg, s, es).calls[c])
  {
    var t := End(cfg, s, es);
    SessionsNameTheirLogin(cfg, s, es, c);
    Reachable(cfg, s, es);
    var root := t.info[t.calls[c].row].root;
    assert RowOk(t.db.refresh, t.info, t.presented, root);
    SameNameSameSubject(subj, t.db.refresh[root].Owner());
  }

  /** A finished refresh, whatever ran in between: its access token verifies to exactly the id, kind, role and
      email that its own lookup read, those of a live account, and that account is the one whose login heads
      the chain. */
  lemma RefreshSpeaksForAccount(cfg: TokenConfig, s: State, es: seq<Event>, c: nat)
    returns (k: nat, subj: Subject, claims: AccessClaims)
    requires FromInit(cfg, s, es)
    requires var t := End(cfg, s, es); c in t.calls && t.calls[c].RefreshDone?
    ensures LookedUp(cfg, s, es, k, c, subj, claims)
    ensures var t := End(cfg, s, es);
            && SaysExactly(cfg, t.calls[c].session, claims)
            && Describes(claims, StateAt(cfg, s, es, k).db, subj)
            && subj == LoginOwner(t, t.calls[c])
  {
    var m;
    k, m, subj, claims := SessionLookedUp(cfg, s, es, |es|, c);
    var t, before := End(cfg, s, es), StateAt(cfg, s, es, k);
    MintedSays(cfg, es, m, c, claims, t.calls[c].session);
    LiveAccountClaims(before.db, subj);
    AccountClaimsNameSubject(before.db, subj);
    CheckedIsCanonical(cfg, s, es, k, c);
    NamedIsOwner(cfg, s, es, c, subj, m, claims);
  }

  /** A refresh past its activity test has a user or an admin in hand. */
  lemma CheckedIsCanonical(cfg: TokenConfig, s: State, es: seq<Event>, k: nat, c: nat)
    requires FromInit(cfg, s, es) && k <= |es|
    requires var t := StateAt(cfg, s, es, k); c in t.calls && t.calls[c].RefreshChecked?
    ensures Canonical(StateAt(cfg, s, es, k).calls[c].subj)
  {
    PrefixValid(cfg, s, es, k, |es|);
    RunKeeps(cfg, s, es, k);
    var t := StateAt(cfg, s, es, k);
    assert CallOk(t, c, t.calls[c]);
    assert RowOk(t.db.refresh, t.info, t.presented, t.calls[c].from);
  }

  /** A finished login's access token verifies to exactly the claims that the login was started with, for the
      owner of the row it made. */
  lemma LoginSpeaksAsStarted(cfg: TokenConfig, s: State, es: seq<Event>, c: nat)
    returns (k: nat, subj: Subject, claims: AccessClaims)
    requires FromInit(cfg, s, es)
    requires var t := End(cfg, s, es); c in t.calls && t.calls[c].LoginDone?
    ensures StartedWith(es, k, c, subj, claims)
    ensures var t := End(cfg, s, es); SaysExactly(cfg, t.calls[c].session, claims) && subj == LoginOwner(t, t.calls[c])
  {
    var m;
    k, m, subj, claims := SessionStarted(cfg, s, es, |es|, c);
    MintedSays(cfg, es, m, c, claims, End(cfg, s, es).calls[c].session);
    StartIsNamed(cfg, s, es, k, |es|);
    NamedIsOwner(cfg, s, es, c, subj, m, claims);
  }

  /** A login that was started names its subject. */
  lemma {:induction false} StartIsNamed(cfg: TokenConfig, s: State, es: seq<Event>, k: nat, n: nat)
    requires k < n <= |es| && ValidRun(cfg, s, es, n) && es[k].action.StartLogin?
    ensures Canonical(es[k].action.subj) && ClaimsFor(es[k].action.subj, es[k].action.claims)
    decreases n
  {
    if k < n - 1 {
      StartIsNamed(cfg, s, es, k, n - 1);
    }
  }
}
