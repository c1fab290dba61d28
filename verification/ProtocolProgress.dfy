/** The step machine is never stuck: every call can take its next step, and what a caller was handed it can
    present. So what is said of all runs is said of runs that do happen. */
module ProtocolProgress {
  import opened Domain
  import opened AccessTokens
  import opened Store
  import opened Flows
  import opened Protocol
  import opened ProtocolInvariants
  import opened ProtocolSteps
  import opened ProtocolTheorems
  import opened ProtocolRows

  // ---- What was handed out is known to be ----

  predicate HandsOut(call: Call) {
    call.LoginDone? || call.RefreshDone?
  }

  ghost predicate DoneIsDisclosed(s: State) {
    forall c :: c in s.calls && HandsOut(s.calls[c]) ==> s.calls[c].row < |s.info| && s.info[s.calls[c].row].disclosed
  }

  lemma StepDiscloses(cfg: TokenConfig, s: State, c: nat, call: Call, ids: MintIds, salt: nat, now: Time)
    requires c in s.calls && s.calls[c] == call && RefreshCallOk(s, c, call)
    ensures var t := Step(cfg, s, c, call, ids, salt, now);
            c in t.calls && HandsOut(t.calls[c]) && !HandsOut(call) ==>
              t.calls[c].row < |t.info| && t.info[t.calls[c].row].disclosed
  {
  }

  lemma FinalCallStays(cfg: TokenConfig, s: State, c: nat, call: Call, ids: MintIds, salt: nat, now: Time)
    requires HandsOut(call)
    ensures Step(cfg, s, c, call, ids, salt, now) == s
  {
  }

  /** A call that has handed out a session has done so before, or does it now and discloses its row. */
  lemma DoneOrDisclosed(cfg: TokenConfig, s: State, e: Event, c: nat)
    requires Inv(s) && Enabled(s, e) && c in Next(cfg, s, e).calls && HandsOut(Next(cfg, s, e).calls[c])
    ensures var t := Next(cfg, s, e);
            || (c in s.calls && s.calls[c] == t.calls[c])
            || (t.calls[c].row < |t.info| && t.info[t.calls[c].row].disclosed)
  {
    if e.action.Advance? {
      var s1, d := s.(clock := e.now), e.action.c;
      if c != d {
        StepMovesOnly(cfg, s1, d, s.calls[d], e.action.ids, e.action.salt, e.now, c);
      } else if HandsOut(s.calls[c]) {
        FinalCallStays(cfg, s1, c, s.calls[c], e.action.ids, e.action.salt, e.now);
      } else {
        assert CallOk(s, c, s.calls[c]) && CallOk(s1, c, s.calls[c]);
        StepDiscloses(cfg, s1, c, s.calls[c], e.action.ids, e.action.salt, e.now);
      }
    }
  }

  lemma EventDiscloses(cfg: TokenConfig, s: State, e: Event)
    requires Inv(s) && Enabled(s, e) && DoneIsDisclosed(s)
    ensures DoneIsDisclosed(Next(cfg, s, e))
  {
    var t := Next(cfg, s, e);
    EventKeeps(cfg, s, e);
    forall c | c in t.calls && HandsOut(t.calls[c])
      ensures t.calls[c].row < |t.info| && t.info[t.calls[c].row].disclosed
    {
      DoneOrDisclosed(cfg, s, e, c);
      if c in s.calls && s.calls[c] == t.calls[c] {
        var row := t.calls[c].row;
        assert RowGrows(s.db.refresh[row], s.info[row], t.db.refresh[row], t.info[row], Actor(e.action));
      }
    }
  }

  lemma DiscloseNext(cfg: TokenConfig, s: State, e: Event, t: State)
    requires Inv(s) && Enabled(s, e) && DoneIsDisclosed(s) && t == Next(cfg, s, e)
    ensures Inv(t) && DoneIsDisclosed(t)
  {
    EventKeeps(cfg, s, e);
    EventDiscloses(cfg, s, e);
  }

  lemma {:induction false} RunDiscloses(cfg: TokenConfig, s: State, es: seq<Event>, n: nat)
    requires Init(s) && n <= |es| && ValidRun(cfg, s, es, n)
    ensures Inv(StateAt(cfg, s, es, n)) && DoneIsDisclosed(StateAt(cfg, s, es, n))
  {
    if n > 0 {
      RunDiscloses(cfg, s, es, n - 1);
      DiscloseNext(cfg, StateAt(cfg, s, es, n - 1), es[n - 1], StateAt(cfg, s, es, n));
    }
  }

  /** A session that was handed out can be presented, to be refreshed or to log out, in every later state. */
  lemma SessionsCanBePresented(cfg: TokenConfig, s: State, es: seq<Event>, c: nat, d: nat)
    requires FromInit(cfg, s, es)
    requires var t := End(cfg, s, es); c in t.calls && HandsOut(t.calls[c]) && d !in t.calls
    ensures var t := End(cfg, s, es);
            && Enabled(t, Event(t.clock, StartRefresh(d, t.calls[c].session.refreshRaw)))
            && Enabled(t, Event(t.clock, StartLogout(d, t.calls[c].session.refreshRaw)))
  {
    RunDiscloses(cfg, s, es, |es|);
    var t := End(cfg, s, es);
    var row, raw := t.calls[c].row, t.calls[c].session.refreshRaw;
    assert CallOk(t, c, t.calls[c]);
    forall i | 0 <= i < |t.db.refresh| && i != row
      ensures t.db.refresh[i].tokenHash != Sha256(raw)
    {
      var a, b := if i < row then i else row, if i < row then row else i;
      assert PairOk(t.db.refresh[a], t.info[a], t.db.refresh[b], t.info[b]);
    }
  }

  // ---- There is always a next step ----

  lemma {:induction false} UnusedNumber(used: set<Text>) returns (n: nat)
    ensures forall m: nat :: Text(m) in used ==> m < n
    decreases |used|
  {
    n := 0;
    if t :| t in used {
      n := UnusedNumber(used - {t});
      n := if t == Empty || t.n < n then n else t.n + 1;
    }
  }

  /** Whatever the state, there is a raw token that is new to it, and with it every call can take its next
      step at once, or fail if it is not at its end. */
  lemma CallsCanGoOn(s: State, c: nat, salt: nat) returns (raw: Text)
    requires c in s.calls
    ensures forall id, jti :: Enabled(s, Event(s.clock, Advance(c, MintIds(id, raw, jti), salt)))
    ensures !Final(s.calls[c]) ==> Enabled(s, Event(s.clock, Fail(c)))
  {
    var n := UnusedNumber(s.presented + set t | t in s.db.refresh :: t.tokenHash.preimage);
    raw := Text(n);
    forall i | 0 <= i < |s.db.refresh|
      ensures s.db.refresh[i].tokenHash != Sha256(raw)
    {
      assert s.db.refresh[i] in s.db.refresh;
    }
  }
}
