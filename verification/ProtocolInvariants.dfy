/** What every step of the protocol keeps, whichever call takes it. */
module ProtocolInvariants {
  import opened Domain
  import opened AccessTokens
  import opened Store
  import opened Flows
  import opened Protocol

  // ---- How rows may change ----

  /** Only the revocation columns may differ, and a revoked row stays as it is. */
  predicate SameRow(t: RefreshToken, t': RefreshToken) {
    && t' == t.(revokedAt := t'.revokedAt, replacedById := t'.replacedById)
    && (t.revokedAt.Some? ==> t'.revokedAt == t.revokedAt)
  }

  /** A step of call `c` (or of no call, -1) only adds to what is known of a row. */
  predicate RowGrows(t: RefreshToken, n: RowInfo, t': RefreshToken, n': RowInfo, c: int) {
    && SameRow(t, t')
    && n'.creator == n.creator && n'.root == n.root
    && (n.held ==> n'.held) && (n'.held && !n.held ==> n.creator == c)
    && (n.disclosed ==> n'.disclosed) && (n'.disclosed && !n.disclosed ==> n.creator == c)
    && (n.rotatedBy.Some? || t.revokedAt.Some? ==> n'.rotatedBy == n.rotatedBy)
  }

  ghost predicate Grows(rows: seq<RefreshToken>, info: seq<RowInfo>, rows': seq<RefreshToken>, info': seq<RowInfo>,
                        c: int) {
    && |rows| == |info| <= |rows'| == |info'|
    && forall i :: 0 <= i < |rows| ==> RowGrows(rows[i], info[i], rows'[i], info'[i], c)
  }

  predicate ResetGrows(p: PasswordReset, n: ResetInfo, p': PasswordReset, n': ResetInfo) {
    && p' == p.(usedAt := p'.usedAt) && n'.requestedFor == n.requestedFor
    && (p.usedAt.Some? ==> p'.usedAt == p.usedAt) && (n.markedBy.Some? ==> n'.markedBy == n.markedBy)
  }

  ghost predicate ResetsGrow(s: State, s': State, c: int) {
    && |s.db.resets| == |s.resetInfo| <= |s'.db.resets| == |s'.resetInfo|
    && (forall r :: 0 <= r < |s.db.resets| ==> ResetGrows(s.db.resets[r], s.resetInfo[r], s'.db.resets[r],
                                                          s'.resetInfo[r]))
    && |s.writes| <= |s'.writes|
    && (forall w :: 0 <= w < |s.writes| ==> s'.writes[w] == s.writes[w])
    && (forall w :: |s.writes| <= w < |s'.writes| ==> s'.writes[w].writer == c)
  }

  /** A step of call `c`: tables grow, and no other call changes. */
  ghost predicate StateGrows(s: State, s': State, c: int) {
    && Grows(s.db.refresh, s.info, s'.db.refresh, s'.info, c)
    && ResetsGrow(s, s', c)
    && s.presented <= s'.presented
  }

  // ---- The invariant of the refresh rows ----

  predicate OneOwner(t: RefreshToken) {
    t.userId.Some? != t.adminId.Some?
  }

  /** Unrevoked, and made by a login or by a refresh that won its row. */
  predicate LiveHeld(t: RefreshToken, n: RowInfo) {
    n.held && t.revokedAt.None?
  }

  ghost predicate RowOk(rows: seq<RefreshToken>, info: seq<RowInfo>, presented: set<Text>, i: nat)
    requires i < |rows| == |info|
  {
    && OneOwner(rows[i])
    && info[i].root <= i && info[info[i].root].root == info[i].root
    && rows[info[i].root].Owner() == rows[i].Owner()
    && (info[i].disclosed ==> info[i].held)
    && (info[i].rotatedBy.Some? ==> rows[i].revokedAt.Some?)
    && (rows[i].tokenHash.preimage in presented ==> info[i].disclosed)
  }

  /** Rows differ in id and hash, and of two rows of one login at most one is live and held. */
  predicate PairOk(t: RefreshToken, n: RowInfo, t': RefreshToken, n': RowInfo) {
    && t.id != t'.id && t.tokenHash != t'.tokenHash
    && (n.root == n'.root ==> !(LiveHeld(t, n) && LiveHeld(t', n')))
  }

  ghost predicate RowsOk(rows: seq<RefreshToken>, info: seq<RowInfo>, presented: set<Text>) {
    && |rows| == |info|
    && (forall i :: 0 <= i < |rows| ==> RowOk(rows, info, presented, i))
    && (forall i, j :: 0 <= i < j < |rows| ==> PairOk(rows[i], info[i], rows[j], info[j]))
  }

  // ---- The invariant of the password resets ----

  predicate ResetOk(p: PasswordReset, n: ResetInfo) {
    p.Owner() == n.requestedFor && Canonical(n.requestedFor) && (p.usedAt.Some? <==> n.markedBy.Some?)
  }

  /** A write belongs to the call that marked the reset, and goes to the subject of the request. */
  ghost predicate WriteOk(s: State, w: PasswordWrite) {
    && w.reset < |s.resetInfo| && s.resetInfo[w.reset].markedBy == Some(w.writer)
    && w.subj == s.resetInfo[w.reset].requestedFor && w.writer in s.calls
  }

  ghost predicate ResetsOk(s: State) {
    && |s.db.resets| == |s.resetInfo|
    && (forall r :: 0 <= r < |s.db.resets| ==> ResetOk(s.db.resets[r], s.resetInfo[r]))
    && (forall q, r :: 0 <= q < r < |s.db.resets| ==> s.db.resets[q].id != s.db.resets[r].id)
    && (forall w :: 0 <= w < |s.writes| ==> WriteOk(s, s.writes[w]))
    && (forall v, w :: 0 <= v < w < |s.writes| ==> s.writes[v].reset != s.writes[w].reset)
  }

  ghost predicate NoWriteBy(s: State, c: nat) {
    forall w :: 0 <= w < |s.writes| ==> s.writes[w].writer != c
  }

  // ---- The invariant of the calls ----

  /** The row a refresh presented: disclosed, and still the row that was read, up to revocation. */
  ghost predicate Presented(s: State, from: nat, existing: RefreshToken) {
    from < |s.db.refresh| == |s.info| && SameRow(existing, s.db.refresh[from]) && s.info[from].held
  }

  /** `row` was made by call `c` from row `from`: same login, same owner. */
  ghost predicate Successor(s: State, c: nat, from: nat, row: nat) {
    && from < row < |s.db.refresh| == |s.info|
    && s.info[row].creator == c && s.info[row].root == s.info[from].root
    && s.db.refresh[row].Owner() == s.db.refresh[from].Owner()
  }

  /** `c` revoked `from` and so earned `row`. */
  ghost predicate Rotated(s: State, c: nat, from: nat, row: nat) {
    Successor(s, c, from, row) && s.info[row].held && s.info[from].rotatedBy == Some(c)
  }

  ghost predicate Stray(s: State, c: nat, row: nat) {
    row < |s.db.refresh| == |s.info| && s.info[row].creator == c && !s.info[row].held
  }

  /** A row that call `c` made and has not handed out. */
  ghost predicate Secret(s: State, c: nat, row: nat) {
    row < |s.db.refresh| == |s.info| && s.info[row].creator == c && !s.info[row].disclosed
  }

  /** The session names the owner of its row, and carries the raw token of that row. */
  ghost predicate SessionOk(s: State, row: nat, session: Session) {
    && row < |s.db.refresh|
    && s.db.refresh[row].tokenHash == Sha256(session.refreshRaw)
    && session.access.Jwt?
    && session.access.claims.sub == Some(s.db.refresh[row].Owner().ID())
    && session.access.claims.typ == Some(if s.db.refresh[row].Owner().kind == KindAdmin then TypAdmin else TypUser)
  }

  /** A row that call `c` made by a login. */
  ghost predicate LoginRow(s: State, c: nat, row: nat, session: Session) {
    row < |s.info| && s.info[row].creator == c && s.info[row].held && SessionOk(s, row, session)
  }

  ghost predicate RefreshCallOk(s: State, c: nat, call: Call) {
    match call
    case LoginReady(subj, claims) => Canonical(subj) && ClaimsFor(subj, claims)
    case LoginMinted(row, session) => LoginRow(s, c, row, session) && Secret(s, c, row)
    case LoginDone(row, session) => LoginRow(s, c, row, session)
    case RefreshStart(raw) => raw in s.presented
    case RefreshRead(from, existing) => Presented(s, from, existing)
    case RefreshChecked(from, existing, subj) => Presented(s, from, existing) && subj == existing.Owner()
    case RefreshAuthorized(from, existing, subj, claims) =>
      Presented(s, from, existing) && subj == existing.Owner() && ClaimsFor(subj, claims)
    case RefreshMinted(from, existing, row, session) =>
      Presented(s, from, existing) && Successor(s, c, from, row) && Stray(s, c, row) && SessionOk(s, row, session)
    case RefreshWon(from, row, session) => Rotated(s, c, from, row) && SessionOk(s, row, session) && Secret(s, c, row)
    case RefreshDone(from, row, session) => Rotated(s, c, from, row) && SessionOk(s, row, session)
    case Failed(_, Some(row)) => Secret(s, c, row)
    case _ => true
  }

  ghost predicate SameReset(s: State, r: nat, rec: PasswordReset) {
    r < |s.db.resets| == |s.resetInfo| && rec.id == s.db.resets[r].id && rec.Owner() == s.resetInfo[r].requestedFor
  }

  /** The refresh rows of `subj` among the first `n` are revoked. */
  ghost predicate RevokedBelow(s: State, subj: Subject, n: nat) {
    && n <= |s.db.refresh|
    && forall i :: 0 <= i < n && s.db.refresh[i].Owner() == subj ==> s.db.refresh[i].revokedAt.Some?
  }

  /** `c` has changed the password of the subject that reset `r` was requested for. */
  ghost predicate WroteFor(s: State, c: nat, r: nat, subj: Subject) {
    && r < |s.resetInfo| && subj == s.resetInfo[r].requestedFor
    && exists w :: 0 <= w < |s.writes| && s.writes[w].writer == c && s.writes[w].reset == r && s.writes[w].subj == subj
  }

  ghost predicate ResetCallOk(s: State, c: nat, call: Call) {
    match call
    case ResetStart(_, _) => NoWriteBy(s, c)
    case ResetRead(r, rec, _) => SameReset(s, r, rec) && NoWriteBy(s, c)
    case ResetChecked(r, rec, _) => SameReset(s, r, rec) && NoWriteBy(s, c)
    case ResetMarked(r, rec, _) => SameReset(s, r, rec) && NoWriteBy(s, c) && s.resetInfo[r].markedBy == Some(c)
    case ResetWritten(r, subj) => WroteFor(s, c, r, subj) && Canonical(subj)
    case ResetDone(r, subj, n) => WroteFor(s, c, r, subj) && RevokedBelow(s, subj, n)
    case _ => true
  }

  ghost predicate CallOk(s: State, c: nat, call: Call) {
    RefreshCallOk(s, c, call) && ResetCallOk(s, c, call)
  }

  ghost predicate Inv(s: State) {
    && RowsOk(s.db.refresh, s.info, s.presented)
    && ResetsOk(s)
    && forall c :: c in s.calls ==> CallOk(s, c, s.calls[c])
  }

  // ---- Each change of the refresh rows keeps the invariant ----

  lemma InsertKeeps(s: State, row: RefreshToken, n: RowInfo, c: int)
    requires RowsOk(s.db.refresh, s.info, s.presented)
    requires OneOwner(row) && row.tokenHash.preimage !in s.presented && !n.disclosed && n.rotatedBy.None?
    requires forall i :: 0 <= i < |s.db.refresh| ==>
               s.db.refresh[i].id != row.id && s.db.refresh[i].tokenHash != row.tokenHash
    requires if n.held then n.root == |s.info|
             else n.root < |s.info| && s.info[n.root].root == n.root && s.db.refresh[n.root].Owner() == row.Owner()
    ensures var s' := InsertRow(s, row, n);
            RowsOk(s'.db.refresh, s'.info, s'.presented) && Grows(s.db.refresh, s.info, s'.db.refresh, s'.info, c)
  {
    var rows, info := s.db.refresh + [row], s.info + [n];
    forall i | 0 <= i < |rows|
      ensures RowOk(rows, info, s.presented, i)
    {
      if i < |s.info| {
        assert RowOk(s.db.refresh, s.info, s.presented, i);
      }
    }
    forall i, j | 0 <= i < j < |rows|
      ensures PairOk(rows[i], info[i], rows[j], info[j])
    {
      if j == |s.info| {
        assert RowOk(s.db.refresh, s.info, s.presented, i);
      }
    }
  }

  /** Any change that only revokes keeps the invariant. */
  lemma RevokingKeeps(rows: seq<RefreshToken>, info: seq<RowInfo>, presented: set<Text>, rows': seq<RefreshToken>,
                      c: int)
    requires RowsOk(rows, info, presented) && |rows'| == |rows|
    requires forall i :: 0 <= i < |rows| ==> SameRow(rows[i], rows'[i])
    ensures RowsOk(rows', info, presented) && Grows(rows, info, rows', info, c)
  {
    forall i | 0 <= i < |rows|
      ensures RowOk(rows', info, presented, i)
    {
      assert RowOk(rows, info, presented, i);
      assert SameRow(rows[info[i].root], rows'[info[i].root]);
    }
    forall i, j | 0 <= i < j < |rows|
      ensures PairOk(rows'[i], info[i], rows'[j], info[j])
    {
      assert PairOk(rows[i], info[i], rows[j], info[j]);
    }
  }

  lemma DiscloseKeeps(s: State, row: nat, c: int)
    requires RowsOk(s.db.refresh, s.info, s.presented) && row < |s.info| && s.info[row].held && s.info[row].creator == c
    ensures var s' := Disclose(s, row);
            RowsOk(s'.db.refresh, s'.info, s'.presented) && Grows(s.db.refresh, s.info, s'.db.refresh, s'.info, c)
  {
    var rows, info := s.db.refresh, s.info[row := s.info[row].(disclosed := true)];
    forall i | 0 <= i < |rows|
      ensures RowOk(rows, info, s.presented, i)
    {
      assert RowOk(rows, s.info, s.presented, i);
    }
    forall i, j | 0 <= i < j < |rows|
      ensures PairOk(rows[i], info[i], rows[j], info[j])
    {
      assert PairOk(rows[i], s.info[i], rows[j], s.info[j]);
    }
  }

  /** The conditional revocation touches exactly the presented row. */
  lemma RevokedExactly(rows: seq<RefreshToken>, info: seq<RowInfo>, presented: set<Text>, from: nat,
                       existing: RefreshToken, now: Time)
    requires RowsOk(rows, info, presented) && from < |rows| && SameRow(existing, rows[from])
    ensures RevokeAffects(rows, existing.id) <==> rows[from].revokedAt.None?
    ensures RevokeById(rows, existing.id, None, now) ==
            rows[from := RevokedRow(rows[from], existing.id, None, now)]
  {
    forall i | 0 <= i < |rows| && i != from
      ensures rows[i].id != existing.id
    {
      if i < from {
        assert PairOk(rows[i], info[i], rows[from], info[from]);
      } else {
        assert PairOk(rows[from], info[from], rows[i], info[i]);
      }
    }
    if rows[from].revokedAt.None? {
      assert Revocable(rows[from], existing.id);
    }
  }

  lemma RotateKeeps(s: State, c: nat, from: nat, existing: RefreshToken, row: nat, now: Time)
    requires RowsOk(s.db.refresh, s.info, s.presented) && RevokeAffects(s.db.refresh, existing.id)
    requires Presented(s, from, existing) && Successor(s, c, from, row) && Stray(s, c, row)
    ensures var s' := Rotate(s, c, from, existing, row, now);
            RowsOk(s'.db.refresh, s'.info, s'.presented) && Grows(s.db.refresh, s.info, s'.db.refresh, s'.info, c)
  {
    var s' := Rotate(s, c, from, existing, row, now);
    var rows, info, rows', info' := s.db.refresh, s.info, s'.db.refresh, s'.info;
    RevokedExactly(rows, info, s.presented, from, existing, now);
    forall i | 0 <= i < |rows|
      ensures RowOk(rows', info', s.presented, i)
      ensures RowGrows(rows[i], info[i], rows'[i], info'[i], c)
    {
      assert RowOk(rows, info, s.presented, i);
    }
    forall i, j | 0 <= i < j < |rows|
      ensures PairOk(rows'[i], info'[i], rows'[j], info'[j])
    {
      RotatedPair(s, c, from, existing, row, now, i, j);
    }
  }

  /** Only the presented row was live and held in its login, so only the new one is now. */
  lemma RotatedPair(s: State, c: nat, from: nat, existing: RefreshToken, row: nat, now: Time, i: nat, j: nat)
    requires RowsOk(s.db.refresh, s.info, s.presented) && RevokeAffects(s.db.refresh, existing.id)
    requires Presented(s, from, existing) && Successor(s, c, from, row) && Stray(s, c, row)
    requires i < j < |s.info|
    ensures var s' := Rotate(s, c, from, existing, row, now);
            PairOk(s'.db.refresh[i], s'.info[i], s'.db.refresh[j], s'.info[j])
  {
    var rows, info := s.db.refresh, s.info;
    RevokedExactly(rows, info, s.presented, from, existing, now);
    assert PairOk(rows[i], info[i], rows[j], info[j]);
    var other := if i == row then j else i;
    if other < from {
      assert PairOk(rows[other], info[other], rows[from], info[from]);
    } else if from < other {
      assert PairOk(rows[from], info[from], rows[other], info[other]);
    }
  }

  // ---- Calls that do not move keep what is known of them ----

  lemma RefreshCallKeeps(s: State, s': State, actor: int, c: nat, call: Call)
    requires StateGrows(s, s', actor) && c != actor && RefreshCallOk(s, c, call)
    ensures RefreshCallOk(s', c, call)
  {
    var won := call.RefreshMinted? || call.RefreshWon? || call.RefreshDone?;
    var known := if call.RefreshRead? || call.RefreshChecked? || call.RefreshAuthorized? || won then call.from else 0;
    var made := if call.LoginMinted? || call.LoginDone? || won then call.row
                else if call.Failed? && call.stray.Some? then call.stray.value else 0;
    if known < |s.info| {
      assert RowGrows(s.db.refresh[known], s.info[known], s'.db.refresh[known], s'.info[known], actor);
    }
    if made < |s.info| {
      assert RowGrows(s.db.refresh[made], s.info[made], s'.db.refresh[made], s'.info[made], actor);
    }
  }

  lemma ResetCallKeeps(s: State, s': State, actor: int, c: nat, call: Call)
    requires StateGrows(s, s', actor) && c != actor && ResetCallOk(s, c, call)
    ensures ResetCallOk(s', c, call)
  {
    if NoWriteBy(s, c) {
      forall w | 0 <= w < |s'.writes|
        ensures s'.writes[w].writer != c
      {
        assert w < |s.writes| ==> s'.writes[w] == s.writes[w];
      }
    }
    if call.ResetRead? || call.ResetChecked? || call.ResetMarked? || call.ResetWritten? || call.ResetDone? {
      var r := call.reset;
      assert ResetGrows(s.db.resets[r], s.resetInfo[r], s'.db.resets[r], s'.resetInfo[r]);
    }
    if call.ResetDone? {
      forall i | 0 <= i < call.rows && s'.db.refresh[i].Owner() == call.subj
        ensures s'.db.refresh[i].revokedAt.Some?
      {
        assert RowGrows(s.db.refresh[i], s.info[i], s'.db.refresh[i], s'.info[i], actor);
      }
    }
  }

  /** What is left to show after a step of `c`: the tables, and the new program point of `c`. */
  lemma StepKeeps(s: State, s': State, c: int)
    requires Inv(s) && StateGrows(s, s', c)
    requires RowsOk(s'.db.refresh, s'.info, s'.presented) && ResetsOk(s')
    requires forall d :: d in s'.calls && d != c ==> d in s.calls && s'.calls[d] == s.calls[d]
    requires forall d :: d in s'.calls && d == c ==> CallOk(s', d, s'.calls[d])
    ensures Inv(s')
  {
    forall d | d in s'.calls
      ensures CallOk(s', d, s'.calls[d])
    {
      if d != c {
        RefreshCallKeeps(s, s', c, d, s.calls[d]);
        ResetCallKeeps(s, s', c, d, s.calls[d]);
      }
    }
  }
}
