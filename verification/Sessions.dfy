/** Refresh sessions: issued, rotated, revoked, and what a token presented twice gives away. */
module Sessions {
  import opened Common

  type Millis = nat

  /** One row. Rows are named by their place in the table, so a new one is always a fresh id. */
  datatype Session = Session(user: string, tokenHash: nat, revokedAt: Option<Millis>, expiresAt: Millis)

  /** A presented token after the signature check: nothing, or a payload and the token's own hash. */
  datatype Presented = Unverified | Verified(jti: nat, isRefresh: bool, hash: nat)

  datatype Reason = InvalidToken | WrongType | UnknownSession | AlreadyUsed | Expired | StoreFailed

  datatype Answer = Rotated(id: nat) | Refused(reason: Reason)

  /** What the new pair will carry; `stored` is false when writing its row fails. */
  datatype Mint = Mint(hash: nat, expiresAt: Millis, stored: bool)

  /** `login[i]` is the session the login that led to row `i` was issued. */
  datatype State = State(rows: seq<Session>, login: seq<nat>)

  const INITIAL := State([], [])

  predicate Live(s: State, i: nat) {
    i < |s.rows| && s.rows[i].revokedAt.None?
  }

  // ---- the operations, as functions of the table ---------------------------

  function Issue(s: State, user: string, hash: nat, expiresAt: Millis): State {
    State(s.rows + [Session(user, hash, None, expiresAt)], s.login + [|s.rows|])
  }

  function Mark(r: Session, now: Millis): Session {
    if r.revokedAt.None? then r.(revokedAt := Some(now)) else r
  }

  function RevokeAllForUser(s: State, user: string, now: Millis): State {
    s.(rows := seq(|s.rows|, i requires 0 <= i < |s.rows| =>
                     if s.rows[i].user == user then Mark(s.rows[i], now) else s.rows[i]))
  }

  function Revoke(s: State, p: Presented, now: Millis): State {
    if p.Verified? && p.jti < |s.rows| then s.(rows := s.rows[p.jti := Mark(s.rows[p.jti], now)]) else s
  }

  /** The checks of `rotate`, in their order. */
  function Verdict(s: State, p: Presented, now: Millis): Option<Reason> {
    if p.Unverified? then Some(InvalidToken)
    else if !p.isRefresh then Some(WrongType)
    else if p.jti >= |s.rows| || s.rows[p.jti].tokenHash != p.hash then Some(UnknownSession)
    else if s.rows[p.jti].revokedAt.Some? then Some(AlreadyUsed)
    else if s.rows[p.jti].expiresAt < now then Some(Expired)
    else None
  }

  /** The writes of `rotate`: revoke the presented row, then mint in the same lineage. */
  function Commit(s: State, i: nat, now: Millis, m: Mint): State
    requires i < |s.rows| && |s.login| == |s.rows|
  {
    var rows := s.rows[i := s.rows[i].(revokedAt := Some(now))];
    if m.stored then State(rows + [Session(s.rows[i].user, m.hash, None, m.expiresAt)], s.login + [s.login[i]])
    else s.(rows := rows)
  }

  function Rotate(s: State, p: Presented, now: Millis, m: Mint): State
    requires |s.login| == |s.rows|
  {
    match Verdict(s, p, now)
    case None => Commit(s, p.jti, now, m)
    case Some(AlreadyUsed) => RevokeAllForUser(s, s.rows[p.jti].user, now)
    case Some(_) => s
  }

  // ---- the service ---------------------------------------------------------

  class AuthTokens {
    var rows: seq<Session>
    ghost var login: seq<nat>

    ghost function Value(): State
      reads this
    {
      State(rows, login)
    }

    constructor ()
      ensures Value() == INITIAL
    {
      rows, login := [], [];
    }

    method IssueFor(user: string, hash: nat, expiresAt: Millis) returns (id: nat)
      modifies this
      ensures id == |old(rows)| && Value() == Issue(old(Value()), user, hash, expiresAt)
    {
      id := |rows|;
      login := login + [id];
      rows := rows + [Session(user, hash, None, expiresAt)];
    }

    /** `updateMany`, row by row. */
    method RevokeUser(user: string, now: Millis)
      modifies this`rows
      ensures Value() == RevokeAllForUser(old(Value()), user, now)
    {
      var i := 0;
      while i < |rows|
        invariant i <= |rows| == |old(rows)|
        invariant forall k :: i <= k < |rows| ==> rows[k] == old(rows)[k]
        invariant forall k :: 0 <= k < i ==> rows[k] == RevokeAllForUser(old(Value()), user, now).rows[k]
      {
        if rows[i].user == user && rows[i].revokedAt.None? {
          rows := rows[i := rows[i].(revokedAt := Some(now))];
        }
        i := i + 1;
      }
    }

    method RevokeToken(p: Presented, now: Millis)
      modifies this`rows
      ensures Value() == Revoke(old(Value()), p, now)
    {
      if p.Unverified? { return; }
      if p.jti < |rows| && rows[p.jti].revokedAt.None? {
        rows := rows[p.jti := rows[p.jti].(revokedAt := Some(now))];
      }
    }

    method RotateToken(p: Presented, now: Millis, m: Mint) returns (answer: Answer)
      requires |login| == |rows|
      modifies this
      ensures Value() == Rotate(old(Value()), p, now, m)
      ensures match Verdict(old(Value()), p, now)
              case Some(reason) => answer == Refused(reason)
              case None => answer == if m.stored then Rotated(|old(rows)|) else Refused(StoreFailed)
    {
      if p.Unverified? { return Refused(InvalidToken); }
      if !p.isRefresh { return Refused(WrongType); }
      if p.jti >= |rows| || rows[p.jti].tokenHash != p.hash { return Refused(UnknownSession); }
      var session := rows[p.jti];
      if session.revokedAt.Some? {
        RevokeUser(session.user, now);
        return Refused(AlreadyUsed);
      }
      if session.expiresAt < now { return Refused(Expired); }
      rows := rows[p.jti := session.(revokedAt := Some(now))];
      if !m.stored { return Refused(StoreFailed); }
      var id := IssueFor(session.user, m.hash, m.expiresAt);
      login := login[id := login[p.jti]];
      return Rotated(id);
    }
  }

  // ---- runs ----------------------------------------------------------------

  datatype Op =
    | DoIssue(user: string, hash: nat, expiresAt: Millis)
    | DoRotate(p: Presented, now: Millis, m: Mint)
    | DoRevoke(p: Presented, now: Millis)
    | DoRevokeAll(user: string, now: Millis)

  function Step(s: State, op: Op): State
    requires |s.login| == |s.rows|
  {
    match op
    case DoIssue(user, hash, expiresAt) => Issue(s, user, hash, expiresAt)
    case DoRotate(p, now, m) => Rotate(s, p, now, m)
    case DoRevoke(p, now) => Revoke(s, p, now)
    case DoRevokeAll(user, now) => RevokeAllForUser(s, user, now)
  }

  /** Within a lineage only the newest session can be live; all of them are one user's. */
  ghost predicate OneLivePerLogin(s: State) {
    && |s.login| == |s.rows|
    && (forall i :: 0 <= i < |s.login| ==> s.login[i] <= i && s.rows[s.login[i]].user == s.rows[i].user)
    && (forall i: nat, j: nat :: i < j < |s.rows| && s.login[i] == s.login[j] ==> !Live(s, i))
  }

  /** Marking rows, whichever and however many, cannot make a second one live. */
  lemma MarkingKeeps(s: State, t: State)
    requires OneLivePerLogin(s) && t.login == s.login && |t.rows| == |s.rows|
    requires forall i :: 0 <= i < |s.rows| ==>
               t.rows[i].user == s.rows[i].user && (s.rows[i].revokedAt.Some? ==> t.rows[i].revokedAt.Some?)
    ensures OneLivePerLogin(t)
  {
    assert forall i: nat :: i < |s.rows| && !Live(s, i) ==> !Live(t, i);
  }

  lemma IssueKeeps(s: State, user: string, hash: nat, expiresAt: Millis)
    requires OneLivePerLogin(s)
    ensures OneLivePerLogin(Issue(s, user, hash, expiresAt))
  {
    var t := Issue(s, user, hash, expiresAt);
    assert forall i: nat :: i < |s.rows| ==> t.login[i] == s.login[i] && t.rows[i] == s.rows[i];
    assert forall i: nat :: i < |s.rows| && !Live(s, i) ==> !Live(t, i);
  }

  /**
   * `rotate` reads first and writes later. A write after a stale read keeps one live session per
   * login exactly when every other session of that login is revoked by then.
   */
  lemma LateCommitIff(s: State, i: nat, now: Millis, m: Mint)
    requires OneLivePerLogin(s) && i < |s.rows| && m.stored
    ensures OneLivePerLogin(Commit(s, i, now, m)) <==>
            forall j: nat :: j < |s.rows| && j != i && s.login[j] == s.login[i] ==> !Live(s, j)
  {
    var t := Commit(s, i, now, m);
    var n := |s.rows|;
    assert t.login[n] == s.login[i];
    assert forall j: nat :: j < n ==> t.login[j] == s.login[j] && (Live(t, j) <==> Live(s, j) && j != i);
    assert forall j: nat :: j < n ==> t.rows[j].user == s.rows[j].user;
    if OneLivePerLogin(t) {
      forall j: nat | j < n && j != i && s.login[j] == s.login[i] ensures !Live(s, j) {
        assert !Live(t, j);
      }
    } else {
      assert forall j: nat :: j < n ==> t.login[j] <= j && t.rows[t.login[j]].user == t.rows[j].user;
      assert t.rows[t.login[n]].user == t.rows[n].user;
    }
  }

  /** Rotating a live session: it dies, and its lineage's only live member is the one minted. */
  lemma CommitKeeps(s: State, i: nat, now: Millis, m: Mint)
    requires OneLivePerLogin(s) && Live(s, i)
    ensures OneLivePerLogin(Commit(s, i, now, m))
  {
    if m.stored { LateCommitIff(s, i, now, m); } else { MarkingKeeps(s, Commit(s, i, now, m)); }
  }

  lemma StepKeeps(s: State, op: Op)
    requires OneLivePerLogin(s)
    ensures OneLivePerLogin(Step(s, op))
  {
    match op
    case DoIssue(user, hash, expiresAt) => IssueKeeps(s, user, hash, expiresAt);
    case DoRotate(p, now, m) =>
      if Verdict(s, p, now).None? { CommitKeeps(s, p.jti, now, m); } else { MarkingKeeps(s, Step(s, op)); }
    case DoRevoke(p, now) => MarkingKeeps(s, Step(s, op));
    case DoRevokeAll(user, now) => MarkingKeeps(s, Step(s, op));
  }

  function Run(s: State, ops: seq<Op>): (t: State)
    requires OneLivePerLogin(s)
    ensures OneLivePerLogin(t)
    decreases |ops|
  {
    if ops == [] then s else
      StepKeeps(s, ops[0]);
      Run(Step(s, ops[0]), ops[1..])
  }

  /** Whatever is done in whatever order, a login has at most one live session, and it is the newest. */
  lemma AtMostOneLive(ops: seq<Op>, i: nat, j: nat)
    requires i < j < |Run(INITIAL, ops).rows|
    requires Run(INITIAL, ops).login[i] == Run(INITIAL, ops).login[j]
    ensures Run(INITIAL, ops).rows[i].revokedAt.Some?
    ensures Run(INITIAL, ops).rows[i].user == Run(INITIAL, ops).rows[j].user
  {
    var s := Run(INITIAL, ops);
    assert !Live(s, i);
  }

  lemma StepNeverRevives(s: State, op: Op, i: nat)
    requires OneLivePerLogin(s) && i < |s.rows|
    ensures i < |Step(s, op).rows| && s.login[i] == Step(s, op).login[i]
    ensures s.rows[i].revokedAt.Some? ==> Step(s, op).rows[i] == s.rows[i]
    ensures Step(s, op).rows[i].(revokedAt := None) == s.rows[i].(revokedAt := None)
  {
  }

  /** A revoked session keeps the moment it was revoked at, and nothing else about a row ever changes. */
  lemma {:induction false} NeverRevives(s: State, ops: seq<Op>, i: nat)
    requires OneLivePerLogin(s) && i < |s.rows|
    ensures i < |Run(s, ops).rows|
    ensures s.rows[i].revokedAt.Some? ==> Run(s, ops).rows[i] == s.rows[i]
    ensures Run(s, ops).rows[i].(revokedAt := None) == s.rows[i].(revokedAt := None)
    decreases |ops|
  {
    if ops != [] {
      StepKeeps(s, ops[0]);
      StepNeverRevives(s, ops[0], i);
      hide OneLivePerLogin, Step;
      NeverRevives(Step(s, ops[0]), ops[1..], i);
    }
  }

  /**
   * A token that has been rotated buys nothing more: presented again after anything else has
   * happened, by whoever holds it, it is refused, no session is made, every session of its user is
   * dead, and no other user's row is touched.
   */
  lemma ReuseEndsEverySession(s: State, p: Presented, now: Millis, m: Mint, ops: seq<Op>, later: Millis, m2: Mint)
    requires OneLivePerLogin(s) && Verdict(s, p, now).None?
    ensures OneLivePerLogin(Rotate(s, p, now, m))
    ensures var before := Run(Rotate(s, p, now, m), ops);
            var after := Rotate(before, p, later, m2);
            && Verdict(before, p, later) == Some(AlreadyUsed)
            && |after.rows| == |before.rows|
            && (forall i: nat :: i < |after.rows| && after.rows[i].user == s.rows[p.jti].user ==> !Live(after, i))
            && (forall i :: 0 <= i < |after.rows| && after.rows[i].user != s.rows[p.jti].user ==> after.rows[i] == before.rows[i])
  {
    StepKeeps(s, DoRotate(p, now, m));
    var t := Rotate(s, p, now, m);
    assert t == Step(s, DoRotate(p, now, m));
    NeverRevives(t, ops, p.jti);
  }

  // ---- why the check and the write must be one step ------------------------

  ghost predicate LoggedOut(s: State, user: string) {
    forall i: nat :: i < |s.rows| && s.rows[i].user == user ==> !Live(s, i)
  }

  /**
   * A reuse revocation can be undone by a rotation that had read its row before: the row's user ends
   * with a live session again exactly when that rotation's new row is stored.
   */
  lemma ReuseRevocationUndoneIff(s: State, i: nat, revoked: Millis, now: Millis, m: Mint)
    requires OneLivePerLogin(s) && Live(s, i)
    ensures var user := s.rows[i].user; var r := RevokeAllForUser(s, user, revoked);
            && |r.rows| == |s.rows| && |r.login| == |r.rows| && LoggedOut(r, user)
            && (LoggedOut(Commit(r, i, now, m), user) <==> !m.stored)
            && (m.stored ==> Live(Commit(r, i, now, m), |s.rows|) && Commit(r, i, now, m).rows[|s.rows|].user == user)
  {
    var r := RevokeAllForUser(s, s.rows[i].user, revoked);
    var t := Commit(r, i, now, m);
    assert forall j: nat :: j < |s.rows| && s.rows[j].user == s.rows[i].user ==> !Live(r, j);
    assert forall j: nat :: j < |s.rows| && s.rows[j].user == s.rows[i].user ==> t.rows[j].user == s.rows[j].user && !Live(t, j);
    if m.stored { assert Live(t, |s.rows|); }
  }

  /**
   * The guard the write lacks. With no other live session of its user, a write keeps a logged-out
   * user logged out exactly when the row is still unrevoked at that moment or nothing is stored.
   */
  lemma CommitRevivesIff(s: State, i: nat, now: Millis, m: Mint)
    requires OneLivePerLogin(s) && i < |s.rows|
    requires forall j: nat :: j < |s.rows| && j != i && s.rows[j].user == s.rows[i].user ==> !Live(s, j)
    ensures (LoggedOut(s, s.rows[i].user) ==> LoggedOut(Commit(s, i, now, m), s.rows[i].user))
       <==> Live(s, i) || !m.stored
  {
    var t := Commit(s, i, now, m);
    assert forall j: nat :: j < |s.rows| && s.rows[j].user == s.rows[i].user ==> t.rows[j].user == s.rows[j].user && !Live(t, j);
    if m.stored { assert Live(t, |s.rows|) && t.rows[|s.rows|].user == s.rows[i].user; }
  }

  /** Two requests that read the same live row before either writes both succeed, and fork the login. */
  lemma TwoReadsForkALogin(s: State, p: Presented, now: Millis, m: Mint)
    requires OneLivePerLogin(s) && Verdict(s, p, now).None? && m.stored
    ensures var t := Commit(Commit(s, p.jti, now, m), p.jti, now, m);
            && Live(t, |s.rows|) && Live(t, |s.rows| + 1) && t.login[|s.rows|] == t.login[|s.rows| + 1]
            && !OneLivePerLogin(t)
  {
    var t := Commit(Commit(s, p.jti, now, m), p.jti, now, m);
    assert t.login[|s.rows|] == t.login[|s.rows| + 1] && Live(t, |s.rows|);
  }

  // ---- what each operation does to its rows --------------------------------

  /** A token is good for a rotation exactly when nothing is wrong with it, up to and including its last instant. */
  lemma GoodTokenIff(s: State, p: Presented, now: Millis)
    ensures Verdict(s, p, now).None? <==>
            && p.Verified? && p.isRefresh && p.jti < |s.rows| && s.rows[p.jti].tokenHash == p.hash
            && s.rows[p.jti].revokedAt == None && now <= s.rows[p.jti].expiresAt
    ensures Verdict(s, p, now) == Some(AlreadyUsed) <==>
            && p.Verified? && p.isRefresh && p.jti < |s.rows| && s.rows[p.jti].tokenHash == p.hash
            && s.rows[p.jti].revokedAt != None
    ensures Verdict(s, p, now) == Some(Expired) <==>
            && p.Verified? && p.isRefresh && p.jti < |s.rows| && s.rows[p.jti].tokenHash == p.hash
            && s.rows[p.jti].revokedAt == None && now > s.rows[p.jti].expiresAt
  {
  }

  /** Logging out kills the session it names, at that moment, and touches no other. */
  lemma LogoutKills(s: State, p: Presented, now: Millis)
    ensures |Revoke(s, p, now).rows| == |s.rows| && Revoke(s, p, now).login == s.login
    ensures forall i: nat :: i < |s.rows| && !(p.Verified? && p.jti == i) ==> Revoke(s, p, now).rows[i] == s.rows[i]
    ensures p.Verified? && p.jti < |s.rows| ==>
              && !Live(Revoke(s, p, now), p.jti)
              && (s.rows[p.jti].revokedAt == None ==> Revoke(s, p, now).rows[p.jti].revokedAt == Some(now))
  {
  }

  /** Revoking a user kills all of its sessions and nobody else's. */
  lemma UserIsLoggedOut(s: State, user: string, now: Millis)
    ensures var t := RevokeAllForUser(s, user, now);
            && LoggedOut(t, user) && |t.rows| == |s.rows| && t.login == s.login
            && forall i: nat :: i < |s.rows| ==>
                 if s.rows[i].user == user && s.rows[i].revokedAt == None then t.rows[i] == s.rows[i].(revokedAt := Some(now))
                 else t.rows[i] == s.rows[i]
  {
  }

  /** A rotation kills the presented session and makes one live session, the caller's own, in its lineage. */
  lemma RotationMints(s: State, p: Presented, now: Millis, m: Mint)
    requires OneLivePerLogin(s) && Verdict(s, p, now).None?
    ensures var t := Rotate(s, p, now, m); var n := |s.rows|;
            && t.rows[p.jti] == s.rows[p.jti].(revokedAt := Some(now)) && !Live(t, p.jti)
            && |t.rows| == n + (if m.stored then 1 else 0)
            && (m.stored ==>
                  && t.rows[n] == Session(s.rows[p.jti].user, m.hash, None, m.expiresAt) && Live(t, n)
                  && t.login[n] == s.login[p.jti])
            && forall i: nat :: i < n && i != p.jti ==> t.rows[i] == s.rows[i]
  {
  }

  /** A login makes one live session, of a lineage of its own. */
  lemma LoginMints(s: State, user: string, hash: nat, expiresAt: Millis)
    requires OneLivePerLogin(s)
    ensures var t := Issue(s, user, hash, expiresAt); var n := |s.rows|;
            && |t.rows| == n + 1 && t.rows[n] == Session(user, hash, None, expiresAt) && Live(t, n)
            && t.rows[..n] == s.rows && forall i :: 0 <= i < n ==> t.login[i] != t.login[n]
  {
  }
}
