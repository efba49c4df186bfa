/** What each session transaction does and answers, told by the fields of users and tokens before and after it. */
module SessionEffects {
  import opened Options
  import opened SessionRows

  /** Exactly the live tokens among `hs` are revoked, now. */
  ghost predicate Revokes(ts: Tokens, ts': Tokens, now: Time, hs: iset<TokenHash>) {
    ts'.Keys == ts.Keys &&
    forall h | h in ts :: ts'[h] == if h in hs && ts[h].revokedAt.None? then ts[h].(revokedAt := Some(now)) else ts[h]
  }

  ghost function FamilyOf(ts: Tokens, u: UserId, f: Family): iset<TokenHash> {
    iset h | h in ts && ts[h].user == u && ts[h].family == f
  }

  /** The slot's live token is revoked and a live token with the session's own times is stored under `h`. */
  ghost predicate OpensSession(ts: Tokens, ts': Tokens, now: Time, s: Session, h: TokenHash, f: Family) {
    h in ts' && ts'[h] == Token(s.user, s.platform, f, s.startedAt, s.expiresAt, None) &&
    forall g | g != h ::
      (g in ts' <==> g in ts) &&
      (g in ts ==> ts'[g] == if ts[g].revokedAt.None? && ts[g].user == s.user && ts[g].platform == s.platform
                             then ts[g].(revokedAt := Some(now)) else ts[g])
  }

  // ----- Passwords

  ghost predicate Known(r: Rows, u: UserId) { u in r.users && !r.users[u].deleted }

  ghost predicate Locked(x: User, now: Time) { x.lockedUntil.Some? && now < x.lockedUntil.value }

  ghost predicate OnlyUser(r: Rows, r': Rows, u: UserId) {
    r'.users.Keys == r.users.Keys && forall v | v in r.users && v != u :: r'.users[v] == r.users[v]
  }

  /** One more failure; the fifth and every later one locks the account for fifteen minutes. */
  ghost predicate CountsOneFailure(r: Rows, r': Rows, now: Time, u: UserId)
    requires u in r.users
  {
    r'.tokens == r.tokens && OnlyUser(r, r', u) && u in r'.users &&
    r'.users[u] == User(r.users[u].deleted, r.users[u].failedAttempts + 1,
                        if r.users[u].failedAttempts >= 4 then Some(now + 900_000) else r.users[u].lockedUntil)
  }

  ghost predicate ForgetsFailures(r: Rows, r': Rows, u: UserId)
    requires u in r.users
  {
    OnlyUser(r, r', u) && u in r'.users && r'.users[u] == User(r.users[u].deleted, 0, None)
  }

  /** A known, unlocked account: a wrong password counts, a right one opens the session unless the user is sanctioned. */
  ghost predicate LogsIn(r: Rows, r': Rows, now: Time, s: Session, valid: bool, sanctioned: bool, h: TokenHash, f: Family) {
    if !Known(r, s.user) || Locked(r.users[s.user], now) then r' == r
    else if !valid then CountsOneFailure(r, r', now, s.user)
    else if sanctioned then r' == r
    else ForgetsFailures(r, r', s.user) && OpensSession(r.tokens, r'.tokens, now, s, h, f)
  }

  ghost predicate LoginAnswer(r: Rows, now: Time, u: UserId, valid: bool, sanctioned: bool, o: LoginOutcome) {
    o == if !Known(r, u) then LoginFailed
         else if Locked(r.users[u], now) then AccountLocked
         else if !valid then (if r.users[u].failedAttempts >= 4 then AccountLocked else LoginFailed)
         else if sanctioned then LoginSanctioned
         else LoggedIn
  }

  /** The appeal form: the same without a session, and whoever is sanctioned. */
  ghost predicate ChecksPassword(r: Rows, r': Rows, now: Time, u: UserId, valid: bool) {
    if !Known(r, u) || Locked(r.users[u], now) then r' == r
    else if !valid then CountsOneFailure(r, r', now, u)
    else ForgetsFailures(r, r', u) && r'.tokens == r.tokens
  }

  // ----- Refreshing

  /** An unrevoked, unexpired token of a member who is neither sanctioned nor deactivated. */
  ghost predicate MayRotate(r: Rows, now: Time, h: TokenHash, sanctioned: bool) {
    h in r.tokens && !sanctioned && r.tokens[h].revokedAt.None? && now < r.tokens[h].expiresAt && Known(r, r.tokens[h].user)
  }

  /** Thirty days on a mobile device, seven in a browser. */
  function Lifetime(p: Platform): nat {
    if p == MOBILE then 2_592_000_000 else 604_800_000
  }

  ghost predicate Rotates(r: Rows, r': Rows, now: Time, h: TokenHash, next: TokenHash)
    requires h in r.tokens
  {
    var t := r.tokens[h];
    r'.users == r.users && next in r'.tokens && h in r'.tokens && r'.tokens[h] == t.(revokedAt := Some(now)) &&
    r'.tokens[next] == Token(t.user, t.platform, t.family, t.startedAt, now + Lifetime(t.platform), None) &&
    forall g | g != h && g != next :: (g in r'.tokens <==> g in r.tokens) && (g in r.tokens ==> r'.tokens[g] == r.tokens[g])
  }

  /**
   A refresh rotates exactly when it may. Otherwise no token is new: a replay within ten seconds changes nothing, an
   expired token is revoked alone, and a sanction, a late replay or a deactivated user revokes the family.
   */
  ghost predicate Refreshes(r: Rows, r': Rows, now: Time, h: TokenHash, next: TokenHash, sanctioned: bool) {
    if h !in r.tokens then r' == r
    else
      var t := r.tokens[h];
      if MayRotate(r, now, h, sanctioned) then Rotates(r, r', now, h, next)
      else if !sanctioned && t.revokedAt.Some? && now <= t.revokedAt.value + 10_000 then r' == r
      else
        r'.users == r.users &&
        Revokes(r.tokens, r'.tokens, now,
                if !sanctioned && t.revokedAt.None? && t.expiresAt <= now then iset{h} else FamilyOf(r.tokens, t.user, t.family))
  }

  ghost predicate RefreshAnswer(r: Rows, now: Time, h: TokenHash, sanctioned: bool, o: RefreshOutcome) {
    (o.Invalid? <==> h !in r.tokens) && (o.Rotated? <==> MayRotate(r, now, h, sanctioned)) &&
    (o.Sanctioned? <==> h in r.tokens && sanctioned) &&
    (h in r.tokens && !sanctioned ==>
       var t := r.tokens[h];
       (o.TheftDetected? <==> t.revokedAt.Some? && t.revokedAt.value + 10_000 < now) &&
       (o.AlreadyRotated? <==> t.revokedAt.Some? && now <= t.revokedAt.value + 10_000) &&
       (o.Expired? <==> t.revokedAt.None? && t.expiresAt <= now) &&
       (o.Deactivated? <==> t.revokedAt.None? && now < t.expiresAt && !Known(r, t.user)))
  }

  // ----- The transactions do that

  lemma SlotEffect(ts: Tokens, now: Time, s: Session, h: TokenHash, f: Family)
    ensures OpensSession(ts, ReplaceSession(ts, now, s, h, f), now, s, h, f)
  {
  }

  lemma LoginEffect(r: Rows, now: Time, s: Session, valid: bool, sanctioned: bool, h: TokenHash, f: Family)
    ensures LogsIn(r, Login(r, now, s, valid, sanctioned, h, f), now, s, valid, sanctioned, h, f)
    ensures LoginAnswer(r, now, s.user, valid, sanctioned, LoginResult(r, now, s.user, valid, sanctioned))
  {
    SlotEffect(r.tokens, now, s, h, f);
    hide ReplaceSession, OpensSession;
  }

  lemma AppealEffect(r: Rows, now: Time, u: UserId, valid: bool)
    ensures ChecksPassword(r, Appeal(r, now, u, valid), now, u, valid)
    ensures LoginAnswer(r, now, u, valid, false, LoginResult(r, now, u, valid, false))
  {
  }

  lemma RevokingEffects(ts: Tokens, now: Time, u: UserId, f: Family, h: TokenHash)
    ensures Revokes(ts, RevokeFamily(ts, now, u, f), now, FamilyOf(ts, u, f))
    ensures Revokes(ts, RevokeOne(ts, now, h), now, iset{h})
    ensures Revokes(ts, RevokeUser(ts, now, u), now, iset g | g in ts && ts[g].user == u)
  {
  }

  lemma RefreshAnswered(r: Rows, now: Time, h: TokenHash, sanctioned: bool)
    ensures RefreshAnswer(r, now, h, sanctioned, RefreshResult(r, now, h, sanctioned))
  {
  }

  lemma RotationDone(r: Rows, now: Time, h: TokenHash, next: TokenHash, sanctioned: bool)
    requires next !in r.tokens && MayRotate(r, now, h, sanctioned)
    ensures Rotates(r, Refresh(r, now, h, next, sanctioned), now, h, next)
  {
    hide RevokeFamily;
  }

  lemma SessionEnded(r: Rows, now: Time, h: TokenHash, next: TokenHash, sanctioned: bool)
    requires next !in r.tokens && !MayRotate(r, now, h, sanctioned)
    ensures Refreshes(r, Refresh(r, now, h, next, sanctioned), now, h, next, sanctioned)
  {
    if h in r.tokens { RevokingEffects(r.tokens, now, r.tokens[h].user, r.tokens[h].family, h); }
    hide RevokeFamily, RevokeOne, FamilyOf, Revokes;
  }

  lemma RefreshDone(r: Rows, now: Time, h: TokenHash, next: TokenHash, sanctioned: bool)
    requires next !in r.tokens
    ensures Refreshes(r, Refresh(r, now, h, next, sanctioned), now, h, next, sanctioned)
  {
    hide Refresh, Revokes, Rotates, FamilyOf;
    if MayRotate(r, now, h, sanctioned) { RotationDone(r, now, h, next, sanctioned); } else { SessionEnded(r, now, h, next, sanctioned); }
  }

  lemma RefreshEffect(r: Rows, now: Time, h: TokenHash, next: TokenHash, sanctioned: bool)
    requires next !in r.tokens
    ensures Refreshes(r, Refresh(r, now, h, next, sanctioned), now, h, next, sanctioned)
    ensures RefreshAnswer(r, now, h, sanctioned, RefreshResult(r, now, h, sanctioned))
    ensures next in Refresh(r, now, h, next, sanctioned).tokens <==> MayRotate(r, now, h, sanctioned)
  {
    RefreshDone(r, now, h, next, sanctioned);
    RefreshAnswered(r, now, h, sanctioned);
    hide Refresh, RefreshResult, RefreshAnswer;
  }

  lemma LogoutEffect(r: Rows, now: Time, u: UserId, h: TokenHash)
    ensures var r' := Logout(r, now, u, h);
            r'.users == r.users &&
            Revokes(r.tokens, r'.tokens, now, if h in r.tokens && r.tokens[h].user == u then iset{h} else iset{})
  {
  }
}
