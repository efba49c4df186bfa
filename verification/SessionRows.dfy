/** Users' login state and refresh tokens, and the transactions that change them; each is one atomic step. */
module SessionRows {
  import opened Options

  type UserId = nat
  type TokenHash = nat
  type Family = nat
  type Time = nat

  datatype Platform = WEB | MOBILE

  const REPLAY_GRACE_MS: nat := 10 * 1000
  const LOCK_MS: nat := 15 * 60 * 1000
  const MAX_FAILURES: nat := 5
  const DAY_MS: nat := 24 * 60 * 60 * 1000

  function RefreshTtl(p: Platform): nat {
    if p == MOBILE then 30 * DAY_MS else 7 * DAY_MS
  }

  datatype User = User(deleted: bool, failedAttempts: nat, lockedUntil: Option<Time>)

  datatype Token = Token(
    user: UserId, platform: Platform, family: Family, startedAt: Time, expiresAt: Time, revokedAt: Option<Time>)

  datatype Rows = Rows(users: map<UserId, User>, tokens: map<TokenHash, Token>)

  type Tokens = map<TokenHash, Token>

  predicate Live(t: Token) { t.revokedAt.None? }

  /** A login prepared before its transaction; the times are those of the preparation. */
  datatype Session = Session(user: UserId, platform: Platform, startedAt: Time, expiresAt: Time)

  function RevokeSlot(ts: Tokens, now: Time, u: UserId, p: Platform): Tokens {
    map h | h in ts :: if Live(ts[h]) && ts[h].user == u && ts[h].platform == p then ts[h].(revokedAt := Some(now)) else ts[h]
  }

  function RevokeFamily(ts: Tokens, now: Time, u: UserId, f: Family): Tokens {
    map h | h in ts :: if Live(ts[h]) && ts[h].user == u && ts[h].family == f then ts[h].(revokedAt := Some(now)) else ts[h]
  }

  function RevokeUser(ts: Tokens, now: Time, u: UserId): Tokens {
    map h | h in ts :: if Live(ts[h]) && ts[h].user == u then ts[h].(revokedAt := Some(now)) else ts[h]
  }

  function RevokeOne(ts: Tokens, now: Time, h: TokenHash): Tokens {
    if h in ts && Live(ts[h]) then ts[h := ts[h].(revokedAt := Some(now))] else ts
  }

  function DropExpired(ts: Tokens, now: Time): Tokens {
    map h | h in ts && ts[h].expiresAt >= now :: ts[h]
  }

  // ----- replaceSession, login

  function ReplaceSession(ts: Tokens, now: Time, s: Session, h: TokenHash, f: Family): Tokens {
    RevokeSlot(ts, now, s.user, s.platform)[h := Token(s.user, s.platform, f, s.startedAt, s.expiresAt, None)]
  }

  datatype LoginOutcome = LoginFailed | AccountLocked | LoginSanctioned | LoggedIn

  function LoginResult(r: Rows, now: Time, u: UserId, valid: bool, sanctioned: bool): LoginOutcome {
    if u !in r.users || r.users[u].deleted then LoginFailed
    else if r.users[u].lockedUntil.Some? && r.users[u].lockedUntil.value > now then AccountLocked
    else if !valid then (if r.users[u].failedAttempts + 1 >= MAX_FAILURES then AccountLocked else LoginFailed)
    else if sanctioned then LoginSanctioned
    else LoggedIn
  }

  predicate CountsFailure(r: Rows, now: Time, u: UserId, valid: bool) {
    u in r.users && !r.users[u].deleted && !valid && !(r.users[u].lockedUntil.Some? && r.users[u].lockedUntil.value > now)
  }

  function AfterFailure(x: User, now: Time): User {
    var failures := x.failedAttempts + 1;
    x.(failedAttempts := failures, lockedUntil := if failures >= MAX_FAILURES then Some(now + LOCK_MS) else x.lockedUntil)
  }

  function Login(r: Rows, now: Time, s: Session, valid: bool, sanctioned: bool, h: TokenHash, f: Family): Rows {
    if LoginResult(r, now, s.user, valid, sanctioned).LoggedIn? then
      Rows(r.users[s.user := r.users[s.user].(failedAttempts := 0, lockedUntil := None)], ReplaceSession(r.tokens, now, s, h, f))
    else if CountsFailure(r, now, s.user, valid) then r.(users := r.users[s.user := AfterFailure(r.users[s.user], now)])
    else r
  }

  /** The appeal form checks a password on the same counter and lock, but opens no session and asks for no sanction. */
  function Appeal(r: Rows, now: Time, u: UserId, valid: bool): Rows {
    if LoginResult(r, now, u, valid, false).LoggedIn? then
      r.(users := r.users[u := r.users[u].(failedAttempts := 0, lockedUntil := None)])
    else if CountsFailure(r, now, u, valid) then r.(users := r.users[u := AfterFailure(r.users[u], now)])
    else r
  }

  function CreateSession(r: Rows, now: Time, s: Session, sanctioned: bool, h: TokenHash, f: Family): Rows {
    if sanctioned then r else r.(tokens := ReplaceSession(r.tokens, now, s, h, f))
  }

  // ----- refresh

  datatype RefreshOutcome = Invalid | Sanctioned | TheftDetected | AlreadyRotated | Expired | Deactivated | Rotated

  function RefreshResult(r: Rows, now: Time, h: TokenHash, sanctioned: bool): RefreshOutcome {
    if h !in r.tokens then Invalid
    else
      var t := r.tokens[h];
      if sanctioned then Sanctioned
      else if t.revokedAt.Some? then (if now > t.revokedAt.value + REPLAY_GRACE_MS then TheftDetected else AlreadyRotated)
      else if t.expiresAt <= now then Expired
      else if t.user !in r.users || r.users[t.user].deleted then Deactivated
      else Rotated
  }

  function Successor(t: Token, now: Time): Token {
    Token(t.user, t.platform, t.family, t.startedAt, now + RefreshTtl(t.platform), None)
  }

  function Refresh(r: Rows, now: Time, h: TokenHash, next: TokenHash, sanctioned: bool): Rows {
    match RefreshResult(r, now, h, sanctioned)
    case Invalid => r
    case AlreadyRotated => r
    case Expired => r.(tokens := RevokeOne(r.tokens, now, h))
    case Rotated => r.(tokens := RevokeOne(r.tokens, now, h)[next := Successor(r.tokens[h], now)])
    case _ => r.(tokens := RevokeFamily(r.tokens, now, r.tokens[h].user, r.tokens[h].family))
  }

  // ----- logout, revokeSession

  function Logout(r: Rows, now: Time, u: UserId, h: TokenHash): Rows {
    if h in r.tokens && r.tokens[h].user == u then r.(tokens := RevokeOne(r.tokens, now, h)) else r
  }
}

/** The rows as the service changes them in place. */
module SessionStore {
  import opened Options
  import opened R = SessionRows
  import opened SessionEffects

  class SessionDatabase {
    var users: map<UserId, User>
    var tokens: map<TokenHash, Token>

    function View(): Rows
      reads this
    {
      Rows(users, tokens)
    }

    constructor ()
      ensures View() == Rows(map[], map[])
    {
      users, tokens := map[], map[];
    }

    method ReplaceSession(now: Time, s: Session, h: TokenHash, f: Family)
      requires h !in tokens
      modifies this`tokens
      ensures tokens == R.ReplaceSession(old(tokens), now, s, h, f)
      ensures OpensSession(old(tokens), tokens, now, s, h, f)
    {
      SlotEffect(tokens, now, s, h, f);
      tokens := RevokeSlot(tokens, now, s.user, s.platform);
      tokens := tokens[h := Token(s.user, s.platform, f, s.startedAt, s.expiresAt, None)];
    }

    method CreateSession(now: Time, s: Session, sanctioned: bool, h: TokenHash, f: Family) returns (ok: bool)
      requires h !in tokens
      modifies this
      ensures View() == R.CreateSession(old(View()), now, s, sanctioned, h, f) && ok == !sanctioned
      ensures users == old(users) && if sanctioned then tokens == old(tokens) else OpensSession(old(tokens), tokens, now, s, h, f)
    {
      if sanctioned { return false; }
      ReplaceSession(now, s, h, f);
      return true;
    }

    /** `valid` is the answer of the password check, `sanctioned` that of the sanction check. */
    method Login(now: Time, s: Session, valid: bool, sanctioned: bool, h: TokenHash, f: Family) returns (o: LoginOutcome)
      requires h !in tokens
      modifies this
      ensures View() == R.Login(old(View()), now, s, valid, sanctioned, h, f)
      ensures o == LoginResult(old(View()), now, s.user, valid, sanctioned)
      ensures LogsIn(old(View()), View(), now, s, valid, sanctioned, h, f)
      ensures LoginAnswer(old(View()), now, s.user, valid, sanctioned, o)
    {
      LoginEffect(View(), now, s, valid, sanctioned, h, f);
      if s.user !in users || users[s.user].deleted { return LoginFailed; }
      var user := users[s.user];
      if user.lockedUntil.Some? && user.lockedUntil.value > now { return AccountLocked; }
      if !valid {
        var attempts := user.failedAttempts + 1;
        var locked := attempts >= MAX_FAILURES;
        users := users[s.user := user.(failedAttempts := attempts)];
        if locked {
          users := users[s.user := users[s.user].(lockedUntil := Some(now + LOCK_MS))];
          return AccountLocked;
        }
        return LoginFailed;
      }
      if sanctioned { return LoginSanctioned; }
      if user.failedAttempts > 0 || user.lockedUntil.Some? {
        users := users[s.user := user.(failedAttempts := 0, lockedUntil := None)];
      }
      assert users == old(users)[s.user := user.(failedAttempts := 0, lockedUntil := None)];
      ReplaceSession(now, s, h, f);
      return LoggedIn;
    }

    method VerifyCredentials(now: Time, u: UserId, valid: bool) returns (o: LoginOutcome)
      modifies this`users
      ensures View() == R.Appeal(old(View()), now, u, valid)
      ensures o == LoginResult(old(View()), now, u, valid, false)
      ensures ChecksPassword(old(View()), View(), now, u, valid) && LoginAnswer(old(View()), now, u, valid, false, o)
    {
      AppealEffect(View(), now, u, valid);
      if u !in users || users[u].deleted { return LoginFailed; }
      var user := users[u];
      if user.lockedUntil.Some? && user.lockedUntil.value > now { return AccountLocked; }
      if !valid {
        var attempts := user.failedAttempts + 1;
        var locked := attempts >= MAX_FAILURES;
        users := users[u := user.(failedAttempts := attempts, lockedUntil := if locked then Some(now + LOCK_MS) else user.lockedUntil)];
        return if locked then AccountLocked else LoginFailed;
      }
      if user.failedAttempts > 0 || user.lockedUntil.Some? {
        users := users[u := user.(failedAttempts := 0, lockedUntil := None)];
      }
      assert users == old(users)[u := user.(failedAttempts := 0, lockedUntil := None)];
      return LoggedIn;
    }

    method Refresh(now: Time, h: TokenHash, next: TokenHash, sanctioned: bool) returns (o: RefreshOutcome)
      requires next !in tokens
      modifies this
      ensures View() == R.Refresh(old(View()), now, h, next, sanctioned)
      ensures o == RefreshResult(old(View()), now, h, sanctioned)
      ensures Refreshes(old(View()), View(), now, h, next, sanctioned) && RefreshAnswer(old(View()), now, h, sanctioned, o)
      ensures next in tokens <==> MayRotate(old(View()), now, h, sanctioned)
    {
      RefreshEffect(View(), now, h, next, sanctioned);
      if h !in tokens { return Invalid; }
      var record := tokens[h];
      if sanctioned {
        tokens := RevokeFamily(tokens, now, record.user, record.family);
        return Sanctioned;
      }
      if record.revokedAt.Some? {
        var outsideGrace := now - record.revokedAt.value > REPLAY_GRACE_MS;
        if outsideGrace {
          tokens := RevokeFamily(tokens, now, record.user, record.family);
          return TheftDetected;
        }
        return AlreadyRotated;
      }
      if record.expiresAt <= now {
        tokens := tokens[h := record.(revokedAt := Some(now))];
        return Expired;
      }
      if record.user !in users || users[record.user].deleted {
        tokens := RevokeFamily(tokens, now, record.user, record.family);
        return Deactivated;
      }
      tokens := tokens[h := record.(revokedAt := Some(now))];
      var expiresAt := now + RefreshTtl(record.platform);
      tokens := tokens[next := Token(record.user, record.platform, record.family, record.startedAt, expiresAt, None)];
      return Rotated;
    }

    method Logout(now: Time, u: UserId, h: TokenHash) returns (count: nat)
      modifies this
      ensures View() == R.Logout(old(View()), now, u, h)
      ensures users == old(users) &&
              Revokes(old(tokens), tokens, now, if h in old(tokens) && old(tokens)[h].user == u then iset{h} else iset{})
      ensures count == if h in old(tokens) && old(tokens)[h].user == u && Live(old(tokens)[h]) then 1 else 0
    {
      LogoutEffect(View(), now, u, h);
      count := 0;
      if h in tokens && tokens[h].user == u && tokens[h].revokedAt.None? {
        tokens := tokens[h := tokens[h].(revokedAt := Some(now))];
        count := 1;
      }
    }

    /** The unlocked update of `revokeSession`; `false` when no token of the family was still live. */
    method RevokeSession(now: Time, u: UserId, f: Family) returns (revoked: bool)
      modifies this
      ensures View() == old(View()).(tokens := RevokeFamily(old(tokens), now, u, f))
      ensures Revokes(old(tokens), tokens, now, FamilyOf(old(tokens), u, f))
      ensures revoked <==> exists h :: h in old(tokens) && Live(old(tokens)[h]) && old(tokens)[h].user == u && old(tokens)[h].family == f
    {
      RevokingEffects(tokens, now, u, f, 0);
      revoked := exists h :: h in tokens && Live(tokens[h]) && tokens[h].user == u && tokens[h].family == f;
      tokens := RevokeFamily(tokens, now, u, f);
    }
  }
}
