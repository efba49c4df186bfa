/** What holds of login sessions in every run. */
module SessionSafety {
  import opened Options
  import opened SessionRows
  import opened SessionProtocol

  /** At most one token is live for a user and platform, and at most one in a family. */
  lemma OneLiveToken(trace: seq<Action>, h: TokenHash, g: TokenHash)
    requires var ts := Reached(trace).rows.tokens; h in ts && g in ts && Live(ts[h]) && Live(ts[g])
    requires var ts := Reached(trace).rows.tokens;
             (ts[h].user == ts[g].user && ts[h].platform == ts[g].platform) || ts[h].family == ts[g].family
    ensures h == g
  {
    EveryRunKeeps(trace);
    var w := Reached(trace);
    hide Reached;
    assert Belongs(w.rows.tokens[h], w.families) && Belongs(w.rows.tokens[g], w.families);
  }

  /** All tokens a family ever has carry the user, the platform and the session start of its first one. */
  lemma FamilyIdentityIsFixed(before: seq<Action>, after: seq<Action>, h: TokenHash, g: TokenHash)
    requires var w, w' := Reached(before), Run(Reached(before), after);
             h in w.rows.tokens && g in w'.rows.tokens && w'.rows.tokens[g].family == w.rows.tokens[h].family
    ensures var t, t' := Reached(before).rows.tokens[h], Run(Reached(before), after).rows.tokens[g];
            t'.user == t.user && t'.platform == t.platform && t'.startedAt == t.startedAt
  {
    EveryRunKeeps(before);
    RunKeeps(Reached(before), after);
    hide Reached, Run;
    assert Belongs(Reached(before).rows.tokens[h], Reached(before).families);
    assert Belongs(Run(Reached(before), after).rows.tokens[g], Run(Reached(before), after).families);
  }

  /** No token is ever rotated twice, and no token is the successor of two. */
  lemma EachTokenRotatesOnce(trace: seq<Action>, i: nat, j: nat)
    requires i < j < |Reached(trace).rotations|
    ensures Reached(trace).rotations[i].0 != Reached(trace).rotations[j].0
    ensures Reached(trace).rotations[i].1 != Reached(trace).rotations[j].1
  {
    EveryRunKeeps(trace);
  }

  /** Once no token of a family is live, none ever is again. */
  lemma DeadFamilyStaysDead(before: seq<Action>, after: seq<Action>, f: Family)
    requires f in Reached(before).families && Dead(Reached(before).rows.tokens, f)
    ensures Dead(Run(Reached(before), after).rows.tokens, f)
  {
    EveryRunKeeps(before);
    RunKeeps(Reached(before), after);
  }

  /** A revocation is final: the token is never live again, and its time of revocation never changes. */
  lemma RevocationIsFinal(before: seq<Action>, after: seq<Action>, h: TokenHash)
    requires h in Reached(before).rows.tokens && !Live(Reached(before).rows.tokens[h])
    ensures var ts := Run(Reached(before), after).rows.tokens; h in ts ==> ts[h] == Reached(before).rows.tokens[h]
  {
    EveryRunKeeps(before);
    RunKeeps(Reached(before), after);
    hide Reached, Run;
    assert TokenEvolves(Reached(before).rows.tokens, Run(Reached(before), after).rows.tokens, h);
  }

  /**
   Replaying a revoked token of an unsanctioned user: within ten seconds of its revocation nothing changes; later,
   every token of its family is revoked, and the family is dead for the rest of the run.
   */
  lemma ReplayKillsFamily(before: seq<Action>, h: TokenHash, next: TokenHash, after: seq<Action>)
    requires var w := Reached(before); h in w.rows.tokens && !Live(w.rows.tokens[h]) && next !in w.used
    ensures var w := Reached(before);
            var w' := Step(w, RefreshToken(h, next, false));
            if w.clock <= w.rows.tokens[h].revokedAt.value + REPLAY_GRACE_MS then w' == w
            else Dead(w'.rows.tokens, w.rows.tokens[h].family) && Dead(Run(w', after).rows.tokens, w.rows.tokens[h].family)
  {
    EveryRunKeeps(before);
    var w := Reached(before);
    hide Reached, Run;
    var w' := Step(w, RefreshToken(h, next, false));
    StepKeeps(w, RefreshToken(h, next, false));
    assert Belongs(w.rows.tokens[h], w.families);
    if w.clock > w.rows.tokens[h].revokedAt.value + REPLAY_GRACE_MS {
      RevokedFamilyIsDead(w, h);
      RunKeeps(w', after);
    } else {
      assert w.(rows := w.rows) == w;
    }
  }

  /** The tokens of a family all have one user, so revoking that user's tokens of the family leaves none live. */
  lemma RevokedFamilyIsDead(w: World, h: TokenHash)
    requires Inv(w) && h in w.rows.tokens
    ensures var t := w.rows.tokens[h]; Dead(RevokeFamily(w.rows.tokens, w.clock, t.user, t.family), t.family)
  {
    var t := w.rows.tokens[h];
    forall g | g in w.rows.tokens && w.rows.tokens[g].family == t.family
      ensures w.rows.tokens[g].user == t.user
    {
      assert Belongs(w.rows.tokens[g], w.families) && Belongs(t, w.families);
    }
  }

  /** A sanctioned user's refresh leaves no live token in the family, whatever the token's own state. */
  lemma SanctionKillsFamily(before: seq<Action>, h: TokenHash, next: TokenHash)
    requires var w := Reached(before); h in w.rows.tokens && next !in w.used
    ensures var w := Reached(before); Dead(Step(w, RefreshToken(h, next, true)).rows.tokens, w.rows.tokens[h].family)
  {
    EveryRunKeeps(before);
    RevokedFamilyIsDead(Reached(before), h);
  }

  /** A successful rotation leaves exactly one live token in the family, the new one, with the session's own start. */
  lemma RotationMovesTheSession(before: seq<Action>, h: TokenHash, next: TokenHash)
    requires var w := Reached(before); next !in w.used && RefreshResult(w.rows, w.clock, h, false).Rotated?
    ensures var w := Reached(before);
            var t := w.rows.tokens[h];
            var ts := Step(w, RefreshToken(h, next, false)).rows.tokens;
            (forall g | g in ts && ts[g].family == t.family :: Live(ts[g]) <==> g == next) && next in ts &&
            ts[next] == Token(t.user, t.platform, t.family, t.startedAt, w.clock + RefreshTtl(t.platform), None) &&
            h in ts && ts[h].revokedAt == Some(w.clock)
  {
    EveryRunKeeps(before);
    hide Reached;
    Rotates(Reached(before), h, next);
  }

  lemma Rotates(w: World, h: TokenHash, next: TokenHash)
    requires Inv(w) && next !in w.used && RefreshResult(w.rows, w.clock, h, false).Rotated?
    ensures var t := w.rows.tokens[h];
            var ts := Step(w, RefreshToken(h, next, false)).rows.tokens;
            (forall g | g in ts && ts[g].family == t.family :: Live(ts[g]) <==> g == next) && next in ts &&
            ts[next] == Token(t.user, t.platform, t.family, t.startedAt, w.clock + RefreshTtl(t.platform), None) &&
            h in ts && ts[h].revokedAt == Some(w.clock)
  {
    assert h in w.used;
    forall g | g in w.rows.tokens && w.rows.tokens[g].family == w.rows.tokens[h].family && Live(w.rows.tokens[g])
      ensures g == h
    {
      assert Belongs(w.rows.tokens[g], w.families) && Belongs(w.rows.tokens[h], w.families);
    }
  }

  /**
   A refresh either rotates, or is an early replay and changes nothing, or leaves no live token in the family: an
   expired token, a deactivated user, a sanction and a late replay all end the session.
   */
  lemma RefreshRotatesOrEndsTheSession(before: seq<Action>, h: TokenHash, next: TokenHash, sanctioned: bool)
    requires var w := Reached(before); h in w.rows.tokens && next !in w.used
    ensures var w := Reached(before);
            var ts := Step(w, RefreshToken(h, next, sanctioned)).rows.tokens;
            match RefreshResult(w.rows, w.clock, h, sanctioned)
            case Rotated => !Dead(ts, w.rows.tokens[h].family)
            case AlreadyRotated => ts == w.rows.tokens
            case _ => Dead(ts, w.rows.tokens[h].family)
  {
    EveryRunKeeps(before);
    hide Reached;
    var w := Reached(before);
    RevokedFamilyIsDead(w, h);
    match RefreshResult(w.rows, w.clock, h, sanctioned)
    case Expired => LastLiveToken(w, h);
    case Rotated => Rotates(w, h, next);
    case _ =>
  }

  lemma LastLiveToken(w: World, h: TokenHash)
    requires Inv(w) && h in w.rows.tokens && Live(w.rows.tokens[h])
    ensures Dead(RevokeOne(w.rows.tokens, w.clock, h), w.rows.tokens[h].family)
  {
    forall g | g in w.rows.tokens && w.rows.tokens[g].family == w.rows.tokens[h].family && Live(w.rows.tokens[g])
      ensures g == h
    {
      assert Belongs(w.rows.tokens[g], w.families) && Belongs(w.rows.tokens[h], w.families);
    }
  }

  // ----- The lock

  /** A step that checks a password of the user, on the login or on the appeal form. */
  predicate TriesPassword(w: World, act: Action, u: UserId) {
    (act.CommitLogin? && At(w, act.p).Prepared? && At(w, act.p).session.user == u) || (act.CommitAppeal? && act.u == u)
  }

  ghost predicate LockedUntil(w: World, u: UserId, t: Time) {
    u in w.rows.users && w.rows.users[u].lockedUntil == Some(t)
  }

  ghost predicate SameLock(w: World, w': World, u: UserId) {
    u in w.rows.users && u in w'.rows.users && w'.rows.users[u].lockedUntil == w.rows.users[u].lockedUntil &&
    w'.rows.users[u].failedAttempts == w.rows.users[u].failedAttempts && FailuresOf(w', u) == FailuresOf(w, u)
  }

  lemma LockStep(w: World, act: Action, u: UserId, t: Time)
    requires LockedUntil(w, u, t) && w.clock < t
    ensures SameLock(w, Step(w, act), u) && (TriesPassword(w, act, u) ==> Step(w, act).rows == w.rows)
  {
    hide ReplaceSession, RevokeFamily, RevokeUser, RevokeOne, DropExpired, RefreshResult, Refresh, LoginResult, CountsFailure,
      AfterFailure, RefreshTtl, StepLogin, StepCreate, StepRefresh, Counted, Appeal;
    match act
    case CommitLogin(p, h, f, valid, sanctioned) => LoginMeetsLock(w, p, h, f, valid, sanctioned, u, t);
    case CommitAppeal(v, valid) => AppealMeetsLock(w, v, valid, u, t);
    case CommitCreate(p, h, f, sanctioned) => CreateLeavesUsers(w, p, h, f, sanctioned);
    case RefreshToken(h, next, sanctioned) => RefreshLeavesFailures(w, h, next, sanctioned);
    case _ =>
  }

  lemma LoginMeetsLock(w: World, p: ProcessId, h: TokenHash, f: Family, valid: bool, sanctioned: bool, u: UserId, t: Time)
    requires LockedUntil(w, u, t) && w.clock < t
    ensures var w' := StepLogin(w, p, h, f, valid, sanctioned);
            SameLock(w, w', u) && (At(w, p).Prepared? && At(w, p).session.user == u ==> w'.rows == w.rows)
  {
    hide ReplaceSession, LoginResult, CountsFailure, AfterFailure;
    LockedTry(w, u, t, valid, sanctioned);
  }

  lemma AppealMeetsLock(w: World, v: UserId, valid: bool, u: UserId, t: Time)
    requires LockedUntil(w, u, t) && w.clock < t
    ensures var w' := Step(w, CommitAppeal(v, valid)); SameLock(w, w', u) && (v == u ==> w'.rows == w.rows)
  {
    hide LoginResult, CountsFailure, AfterFailure;
    LockedTry(w, u, t, valid, false);
  }

  lemma CreateLeavesUsers(w: World, p: ProcessId, h: TokenHash, f: Family, sanctioned: bool)
    ensures var w' := StepCreate(w, p, h, f, sanctioned); w'.rows.users == w.rows.users && w'.failures == w.failures
  {
    hide ReplaceSession;
  }

  lemma RefreshLeavesFailures(w: World, h: TokenHash, next: TokenHash, sanctioned: bool)
    ensures var w' := StepRefresh(w, h, next, sanctioned);
            w'.failures == w.failures && w'.rows.users == w.rows.users
  {
    RefreshLeavesUsers(w.rows, w.clock, h, next, sanctioned);
    hide Refresh, RefreshResult;
  }

  lemma LockedTry(w: World, u: UserId, t: Time, valid: bool, sanctioned: bool)
    requires LockedUntil(w, u, t) && w.clock < t
    ensures !LoginResult(w.rows, w.clock, u, valid, sanctioned).LoggedIn? && !CountsFailure(w.rows, w.clock, u, valid)
  {
  }

  lemma ClockGrows(w: World, act: Action)
    ensures w.clock <= Step(w, act).clock
  {
    hide Login, CreateSession, Refresh, RefreshResult, LoginResult, CountsFailure, Appeal, RevokeFamily, RevokeUser, DropExpired, Logout;
  }

  lemma {:induction false} LockRun(w: World, after: seq<Action>, u: UserId, t: Time)
    requires LockedUntil(w, u, t) && Run(w, after).clock < t
    ensures SameLock(w, Run(w, after), u)
    ensures forall i | 0 <= i < |after| && TriesPassword(Run(w, after[..i]), after[i], u) ::
              Step(Run(w, after[..i]), after[i]).rows == Run(w, after[..i]).rows
  {
    hide Step, TriesPassword, FailuresOf;
    if after != [] {
      var front, act := after[..|after| - 1], after[|after| - 1];
      ClockGrows(Run(w, front), act);
      LockRun(w, front, u, t);
      LockStep(Run(w, front), act, u, t);
      forall i | 0 <= i < |after| && TriesPassword(Run(w, after[..i]), after[i], u)
        ensures Step(Run(w, after[..i]), after[i]).rows == Run(w, after[..i]).rows
      {
        if i < |front| { assert front[..i] == after[..i] && front[i] == after[i]; }
      }
    }
  }

  /**
   A lock holds: until its time comes nothing in any continuation moves it or the failure count, and no password
   tried in between, right or wrong, changes a row, so no login opens a session.
   */
  lemma LockHolds(before: seq<Action>, after: seq<Action>, u: UserId, t: Time)
    requires LockedUntil(Reached(before), u, t) && Run(Reached(before), after).clock < t
    ensures SameLock(Reached(before), Run(Reached(before), after), u)
    ensures forall i | 0 <= i < |after| && TriesPassword(Run(Reached(before), after[..i]), after[i], u) ::
              Step(Run(Reached(before), after[..i]), after[i]).rows == Run(Reached(before), after[..i]).rows
  {
    LockRun(Reached(before), after, u, t);
  }

  // ----- Wrong passwords

  /** Counted as they are stored; from the fifth on, each locks the account for a quarter of an hour. */
  ghost predicate FailureOk(w: World, u: UserId)
    requires u in w.rows.users
  {
    var x, ts := w.rows.users[u], FailuresOf(w, u);
    x.failedAttempts == |ts| && (forall t | t in ts :: t <= w.clock) &&
    (|ts| >= MAX_FAILURES ==> x.lockedUntil.Some? && x.lockedUntil.value >= ts[|ts| - 1] + LOCK_MS) &&
    forall i | MAX_FAILURES - 1 <= i < |ts| - 1 :: ts[i] + LOCK_MS <= ts[i + 1]
  }

  ghost predicate FailuresOk(w: World) {
    (forall u | u in w.rows.users :: FailureOk(w, u)) && forall u | u in w.failures :: u in w.rows.users
  }

  lemma CountedFailure(w: World, u: UserId)
    requires FailuresOk(w) && CountsFailure(w.rows, w.clock, u, false)
    ensures var v := w.(rows := w.rows.(users := w.rows.users[u := AfterFailure(w.rows.users[u], w.clock)]),
                        failures := w.failures[u := FailuresOf(w, u) + [w.clock]]);
            FailuresOk(v)
  {
    var ts := FailuresOf(w, u);
    var v := w.(rows := w.rows.(users := w.rows.users[u := AfterFailure(w.rows.users[u], w.clock)]),
                failures := w.failures[u := ts + [w.clock]]);
    assert FailureOk(w, u);
    forall s | s in v.rows.users
      ensures FailureOk(v, s)
    {
      if s != u { assert FailureOk(w, s); }
    }
  }

  lemma ForgottenFailures(w: World, u: UserId)
    requires FailuresOk(w) && u in w.rows.users
    ensures FailuresOk(w.(rows := w.rows.(users := w.rows.users[u := w.rows.users[u].(failedAttempts := 0, lockedUntil := None)]),
                          failures := w.failures[u := []]))
  {
    assert forall s | s in w.rows.users :: FailureOk(w, s);
  }

  lemma FailuresNeedUsersOnly(w: World, v: World)
    requires FailuresOk(w) && v.rows.users == w.rows.users && v.failures == w.failures && w.clock <= v.clock
    ensures FailuresOk(v)
  {
    forall u | u in v.rows.users
      ensures FailureOk(v, u)
    {
      assert FailureOk(w, u);
    }
  }

  lemma FailuresStep(w: World, act: Action)
    requires FailuresOk(w)
    ensures FailuresOk(Step(w, act))
  {
    hide FailuresOk, ReplaceSession, RevokeFamily, RevokeUser, RevokeOne, DropExpired, AfterFailure, RefreshResult, Refresh;
    match act
    case CommitLogin(p, h, f, valid, sanctioned) =>
      if At(w, p).Prepared? && Fresh(w, h, f) {
        var u := At(w, p).session.user;
        if LoginResult(w.rows, w.clock, u, valid, sanctioned).LoggedIn? {
          ForgottenFailures(w, u);
          FailuresNeedUsersOnly(w.(rows := w.rows.(users := w.rows.users[u := w.rows.users[u].(failedAttempts := 0, lockedUntil := None)]),
                                   failures := w.failures[u := []]), Step(w, act));
        } else if CountsFailure(w.rows, w.clock, u, valid) {
          CountedFailure(w, u);
          FailuresNeedUsersOnly(w.(rows := w.rows.(users := w.rows.users[u := AfterFailure(w.rows.users[u], w.clock)]),
                                   failures := w.failures[u := FailuresOf(w, u) + [w.clock]]), Step(w, act));
        } else {
          FailuresNeedUsersOnly(w, Step(w, act));
        }
      }
    case CommitAppeal(u, valid) =>
      if LoginResult(w.rows, w.clock, u, valid, false).LoggedIn? {
        ForgottenFailures(w, u);
      } else if CountsFailure(w.rows, w.clock, u, valid) {
        CountedFailure(w, u);
      } else {
        FailuresNeedUsersOnly(w, Step(w, act));
      }
    case SetUser(u, deleted) => UserMarked(w, u, deleted);
    case RefreshToken(h, next, sanctioned) =>
      RefreshLeavesUsers(w.rows, w.clock, h, next, sanctioned);
      FailuresNeedUsersOnly(w, Step(w, act));
    case _ => FailuresNeedUsersOnly(w, Step(w, act));
  }

  lemma RefreshLeavesUsers(r: Rows, now: Time, h: TokenHash, next: TokenHash, sanctioned: bool)
    ensures Refresh(r, now, h, next, sanctioned).users == r.users
  {
    hide RevokeFamily, RevokeOne, RefreshResult;
  }

  lemma UserMarked(w: World, u: UserId, deleted: bool)
    requires FailuresOk(w)
    ensures FailuresOk(Step(w, SetUser(u, deleted)))
  {
    var v := Step(w, SetUser(u, deleted));
    forall s | s in v.rows.users
      ensures FailureOk(v, s)
    {
      if s in w.rows.users { assert FailureOk(w, s); }
    }
  }

  lemma {:induction false} FailuresRun(trace: seq<Action>)
    ensures FailuresOk(Reached(trace))
  {
    hide FailuresOk, Step;
    if trace == [] {
      assert FailuresOk(EmptyWorld) by { NoFailures(); }
    } else {
      FailuresRun(trace[..|trace| - 1]);
      FailuresStep(Reached(trace[..|trace| - 1]), trace[|trace| - 1]);
    }
  }

  lemma NoFailures()
    ensures FailuresOk(EmptyWorld)
  {
  }

  /**
   In every run, the wrong passwords since the last accepted one are the stored count; after the fifth, each comes at least
   fifteen minutes after the one before, and the account is locked for that time.
   */
  lemma GuessingSlowsDown(trace: seq<Action>, u: UserId, i: nat)
    requires u in Reached(trace).rows.users && MAX_FAILURES <= i + 1 < |FailuresOf(Reached(trace), u)|
    ensures var w := Reached(trace);
            var ts := FailuresOf(w, u);
            w.rows.users[u].failedAttempts == |ts| && ts[i] + LOCK_MS <= ts[i + 1] &&
            w.rows.users[u].lockedUntil.Some? && ts[|ts| - 1] + LOCK_MS <= w.rows.users[u].lockedUntil.value
  {
    FailuresRun(trace);
    assert FailureOk(Reached(trace), u);
  }
}
