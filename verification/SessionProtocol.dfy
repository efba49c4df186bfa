/**
 Logins, refreshes, logouts and revocations of any number of users and terminals at once. A login is prepared before
 its transaction and a revocation finds its terminal before its update, so both can act on what is already stale.
 */
module SessionProtocol {
  import opened Options
  import opened SessionRows

  type ProcessId = nat

  datatype Process = Idle | Prepared(session: Session) | Revoking(user: UserId, family: Family)

  /** Who a family belongs to and when it began. */
  datatype Identity = Identity(user: UserId, platform: Platform, startedAt: Time)

  /**
   `used` makes token hashes fresh, `families` records every family ever created, `rotations` every rotation, and
   `failures` the times of a user's wrong passwords since the last one that was accepted.
   */
  datatype World = World(
    rows: Rows, clock: Time, processes: map<ProcessId, Process>,
    used: set<TokenHash>, families: map<Family, Identity>, rotations: seq<(TokenHash, TokenHash)>,
    failures: map<UserId, seq<Time>>)

  datatype Action =
    | Tick(ms: nat)
    | SetUser(u: UserId, deleted: bool)
    | Prepare(p: ProcessId, u: UserId, platform: Platform)
    | CommitLogin(p: ProcessId, h: TokenHash, f: Family, valid: bool, sanctioned: bool)
    | CommitAppeal(u: UserId, valid: bool)
    | CommitCreate(p: ProcessId, h: TokenHash, f: Family, sanctioned: bool)
    | RefreshToken(h: TokenHash, next: TokenHash, sanctioned: bool)
    | LogoutToken(u: UserId, h: TokenHash)
    | FindTerminal(p: ProcessId, u: UserId, h: TokenHash)
    | RevokeTerminal(p: ProcessId)
    | RevokeAll(u: UserId)
    | Cleanup

  const EmptyWorld := World(Rows(map[], map[]), 0, map[], {}, map[], [], map[])

  function At(w: World, p: ProcessId): Process {
    if p in w.processes then w.processes[p] else Idle
  }

  function Become(w: World, p: ProcessId, s: Process): World {
    w.(processes := w.processes[p := s])
  }

  function WithTokens(w: World, ts: Tokens): World { w.(rows := w.rows.(tokens := ts)) }

  function IdentityOf(s: Session): Identity { Identity(s.user, s.platform, s.startedAt) }

  /** A new family with its first token. */
  function Opened(w: World, r: Rows, s: Session, h: TokenHash, f: Family): World {
    w.(rows := r, used := w.used + {h}, families := w.families[f := IdentityOf(s)])
  }

  predicate Fresh(w: World, h: TokenHash, f: Family) { h !in w.used && f !in w.families }

  function FailuresOf(w: World, u: UserId): seq<Time> {
    if u in w.failures then w.failures[u] else []
  }

  /** The history of wrong passwords after a password was tried on `w`. */
  function Counted(w': World, w: World, u: UserId, valid: bool, sanctioned: bool): World {
    if LoginResult(w.rows, w.clock, u, valid, sanctioned).LoggedIn? then w'.(failures := w'.failures[u := []])
    else if CountsFailure(w.rows, w.clock, u, valid) then w'.(failures := w'.failures[u := FailuresOf(w, u) + [w.clock]])
    else w'
  }

  function StepLogin(w: World, p: ProcessId, h: TokenHash, f: Family, valid: bool, sanctioned: bool): World {
    match At(w, p)
    case Prepared(s) =>
      if !Fresh(w, h, f) then w
      else
        var r := Login(w.rows, w.clock, s, valid, sanctioned, h, f);
        Counted(Become(if LoginResult(w.rows, w.clock, s.user, valid, sanctioned).LoggedIn? then Opened(w, r, s, h, f)
                       else w.(rows := r), p, Idle),
                w, s.user, valid, sanctioned)
    case _ => w
  }

  function StepCreate(w: World, p: ProcessId, h: TokenHash, f: Family, sanctioned: bool): World {
    match At(w, p)
    case Prepared(s) =>
      if !Fresh(w, h, f) then w
      else if sanctioned then Become(w, p, Idle)
      else Become(Opened(w, CreateSession(w.rows, w.clock, s, sanctioned, h, f), s, h, f), p, Idle)
    case _ => w
  }

  function StepRefresh(w: World, h: TokenHash, next: TokenHash, sanctioned: bool): World {
    if next in w.used then w
    else
      var w' := w.(rows := Refresh(w.rows, w.clock, h, next, sanctioned));
      if RefreshResult(w.rows, w.clock, h, sanctioned).Rotated? then
        w'.(used := w.used + {next}, rotations := w.rotations + [(h, next)])
      else w'
  }

  function Step(w: World, act: Action): World {
    match act
    case Tick(ms) => w.(clock := w.clock + ms)
    case SetUser(u, deleted) =>
      var x := if u in w.rows.users then w.rows.users[u] else User(false, 0, None);
      w.(rows := w.rows.(users := w.rows.users[u := x.(deleted := deleted)]))
    case Prepare(p, u, platform) => Become(w, p, Prepared(Session(u, platform, w.clock, w.clock + RefreshTtl(platform))))
    case CommitLogin(p, h, f, valid, sanctioned) => StepLogin(w, p, h, f, valid, sanctioned)
    case CommitAppeal(u, valid) => Counted(w.(rows := Appeal(w.rows, w.clock, u, valid)), w, u, valid, false)
    case CommitCreate(p, h, f, sanctioned) => StepCreate(w, p, h, f, sanctioned)
    case RefreshToken(h, next, sanctioned) => StepRefresh(w, h, next, sanctioned)
    case LogoutToken(u, h) => w.(rows := Logout(w.rows, w.clock, u, h))
    case FindTerminal(p, u, h) =>
      if h in w.rows.tokens && w.rows.tokens[h].user == u then Become(w, p, Revoking(u, w.rows.tokens[h].family)) else w
    case RevokeTerminal(p) =>
      (match At(w, p)
       case Revoking(u, f) => Become(WithTokens(w, RevokeFamily(w.rows.tokens, w.clock, u, f)), p, Idle)
       case _ => w)
    case RevokeAll(u) => WithTokens(w, RevokeUser(w.rows.tokens, w.clock, u))
    case Cleanup => WithTokens(w, DropExpired(w.rows.tokens, w.clock))
  }

  function Run(w: World, trace: seq<Action>): World {
    if trace == [] then w else Step(Run(w, trace[..|trace| - 1]), trace[|trace| - 1])
  }

  function Reached(trace: seq<Action>): World { Run(EmptyWorld, trace) }

  // ----- What every step keeps

  /** At most one live token for a user and platform: the partial unique index is never violated. */
  ghost predicate SlotsOk(ts: Tokens) {
    forall h, g | h in ts && g in ts && Live(ts[h]) && Live(ts[g]) && ts[h].user == ts[g].user && ts[h].platform == ts[g].platform ::
      h == g
  }

  ghost predicate Belongs(t: Token, families: map<Family, Identity>) {
    t.family in families && families[t.family] == Identity(t.user, t.platform, t.startedAt)
  }

  ghost predicate FamiliesOk(ts: Tokens, families: map<Family, Identity>) {
    forall h | h in ts :: Belongs(ts[h], families)
  }

  ghost predicate RotationsOk(ts: Tokens, used: set<TokenHash>, rotations: seq<(TokenHash, TokenHash)>) {
    ts.Keys <= used &&
    (forall i | 0 <= i < |rotations| ::
       rotations[i].0 in used && rotations[i].1 in used && (rotations[i].0 in ts ==> !Live(ts[rotations[i].0]))) &&
    forall i, j | 0 <= i < j < |rotations| :: rotations[i].0 != rotations[j].0 && rotations[i].1 != rotations[j].1
  }

  ghost predicate Inv(w: World) {
    SlotsOk(w.rows.tokens) && FamiliesOk(w.rows.tokens, w.families) && RotationsOk(w.rows.tokens, w.used, w.rotations)
  }

  ghost predicate Dead(ts: Tokens, f: Family) {
    forall h | h in ts && ts[h].family == f :: !Live(ts[h])
  }

  // ----- What no step undoes

  ghost predicate TokenEvolves(ts: Tokens, ts': Tokens, h: TokenHash) {
    h in ts' ==> h in ts && ts'[h] == ts[h].(revokedAt := ts'[h].revokedAt) && (!Live(ts[h]) ==> ts'[h] == ts[h])
  }

  /** Families keep their identity, revoked tokens stay as they are, and a family without a live token gets none. */
  ghost predicate Evolves(w: World, w': World) {
    w.used <= w'.used && (forall f | f in w.families :: f in w'.families && w'.families[f] == w.families[f]) &&
    (forall h | h in w.used :: TokenEvolves(w.rows.tokens, w'.rows.tokens, h)) &&
    (forall f | f in w.families && Dead(w.rows.tokens, f) :: Dead(w'.rows.tokens, f))
  }

  /** Tokens only revoked or removed. */
  ghost predicate Narrowed(ts: Tokens, ts': Tokens) {
    forall h | h in ts' :: h in ts && ts'[h] == ts[h].(revokedAt := ts'[h].revokedAt) && (!Live(ts[h]) ==> ts'[h] == ts[h])
  }

  lemma NarrowedKeeps(w: World, ts: Tokens)
    requires Inv(w) && Narrowed(w.rows.tokens, ts)
    ensures Inv(WithTokens(w, ts)) && Evolves(w, WithTokens(w, ts))
  {
    assert ts.Keys <= w.rows.tokens.Keys;
  }

  lemma RevokesNarrow(ts: Tokens, now: Time, u: UserId, p: Platform, f: Family, h: TokenHash)
    ensures Narrowed(ts, RevokeSlot(ts, now, u, p)) && Narrowed(ts, RevokeFamily(ts, now, u, f))
    ensures Narrowed(ts, RevokeUser(ts, now, u)) && Narrowed(ts, RevokeOne(ts, now, h)) && Narrowed(ts, DropExpired(ts, now))
  {
  }

  ghost predicate SlotFree(ts: Tokens, t: Token) {
    forall g | g in ts && Live(ts[g]) :: ts[g].user != t.user || ts[g].platform != t.platform
  }

  function Added(w: World, ts: Tokens, h: TokenHash, t: Token, families: map<Family, Identity>): World {
    WithTokens(w, ts[h := t]).(used := w.used + {h}, families := families)
  }

  ghost predicate Extends(families: map<Family, Identity>, families': map<Family, Identity>) {
    forall f | f in families :: f in families' && families'[f] == families[f]
  }

  /** A new token in a slot without a live one; its family is new, or loses its last live token at the same time. */
  lemma AddedKeepsInv(w: World, ts: Tokens, h: TokenHash, t: Token, families: map<Family, Identity>)
    requires Inv(w) && Narrowed(w.rows.tokens, ts) && h !in w.used && Live(t) && Belongs(t, families)
    requires SlotFree(ts, t) && Extends(w.families, families)
    ensures Inv(Added(w, ts, h, t, families))
  {
    NarrowedKeeps(w, ts);
    assert ts.Keys <= w.rows.tokens.Keys;
  }

  lemma AddedEvolves(w: World, ts: Tokens, h: TokenHash, t: Token, families: map<Family, Identity>)
    requires Narrowed(w.rows.tokens, ts) && h !in w.used && Extends(w.families, families)
    requires t.family in w.families ==> !Dead(w.rows.tokens, t.family)
    ensures Evolves(w, Added(w, ts, h, t, families))
  {
    var w' := Added(w, ts, h, t, families);
    forall f | f in w.families && Dead(w.rows.tokens, f)
      ensures Dead(w'.rows.tokens, f)
    {
      assert t.family != f;
    }
  }

  lemma ReplacedKeeps(w: World, s: Session, h: TokenHash, f: Family)
    requires Inv(w) && Fresh(w, h, f)
    ensures var w' := Opened(w, w.rows.(tokens := ReplaceSession(w.rows.tokens, w.clock, s, h, f)), s, h, f); Inv(w') && Evolves(w, w')
  {
    hide Inv, Evolves;
    var ts := RevokeSlot(w.rows.tokens, w.clock, s.user, s.platform);
    RevokesNarrow(w.rows.tokens, w.clock, s.user, s.platform, f, h);
    var t := Token(s.user, s.platform, f, s.startedAt, s.expiresAt, None);
    AddedKeepsInv(w, ts, h, t, w.families[f := IdentityOf(s)]);
    AddedEvolves(w, ts, h, t, w.families[f := IdentityOf(s)]);
  }

  lemma RotatedKeeps(w: World, h: TokenHash, next: TokenHash, sanctioned: bool)
    requires Inv(w) && next !in w.used && RefreshResult(w.rows, w.clock, h, sanctioned).Rotated?
    ensures Inv(StepRefresh(w, h, next, sanctioned)) && Evolves(w, StepRefresh(w, h, next, sanctioned))
  {
    hide Evolves, Inv, RotationsOk, RevokeOne;
    var t := w.rows.tokens[h];
    var ts := RevokeOne(w.rows.tokens, w.clock, h);
    RevokesNarrow(w.rows.tokens, w.clock, t.user, t.platform, t.family, h);
    SlotFreed(w, h);
    AddedKeepsInv(w, ts, next, Successor(t, w.clock), w.families);
    AddedEvolves(w, ts, next, Successor(t, w.clock), w.families);
    var v := Added(w, ts, next, Successor(t, w.clock), w.families);
    assert StepRefresh(w, h, next, sanctioned) == v.(rotations := w.rotations + [(h, next)]);
    RotationAdded(w, v, h, next);
    EvolvesIgnoresRotations(w, v, w.rotations + [(h, next)]);
  }

  /** Revoking a live token leaves its slot free. */
  lemma SlotFreed(w: World, h: TokenHash)
    requires Inv(w) && h in w.rows.tokens && Live(w.rows.tokens[h])
    ensures var t := w.rows.tokens[h];
            SlotFree(RevokeOne(w.rows.tokens, w.clock, h), Successor(t, w.clock)) && Belongs(t, w.families) &&
            h in w.used && h in RevokeOne(w.rows.tokens, w.clock, h) && !Live(RevokeOne(w.rows.tokens, w.clock, h)[h])
  {
  }

  lemma RotationAdded(w: World, v: World, h: TokenHash, next: TokenHash)
    requires Inv(w) && Inv(v) && v.rotations == w.rotations && v.used == w.used + {next} && next !in w.used
    requires h in w.rows.tokens && Live(w.rows.tokens[h]) && h in v.rows.tokens && !Live(v.rows.tokens[h])
    ensures Inv(v.(rotations := w.rotations + [(h, next)]))
  {
  }

  lemma EvolvesIgnoresRotations(w: World, v: World, rotations: seq<(TokenHash, TokenHash)>)
    requires Evolves(w, v)
    ensures Evolves(w, v.(rotations := rotations))
  {
  }

  lemma RefreshKeeps(w: World, h: TokenHash, next: TokenHash, sanctioned: bool)
    requires Inv(w)
    ensures Inv(StepRefresh(w, h, next, sanctioned)) && Evolves(w, StepRefresh(w, h, next, sanctioned))
  {
    hide Inv, Evolves;
    Unchanged(w);
    if next !in w.used && h in w.rows.tokens {
      var t := w.rows.tokens[h];
      RevokesNarrow(w.rows.tokens, w.clock, t.user, t.platform, t.family, h);
      if RefreshResult(w.rows, w.clock, h, sanctioned).Rotated? {
        RotatedKeeps(w, h, next, sanctioned);
      } else {
        NarrowedKeeps(w, RevokeFamily(w.rows.tokens, w.clock, t.user, t.family));
        NarrowedKeeps(w, RevokeOne(w.rows.tokens, w.clock, h));
      }
    }
  }

  lemma Unchanged(w: World)
    ensures Evolves(w, w)
  {
  }

  lemma ProcessesDoNotMatter(w: World, v: World, p: ProcessId, s: Process)
    ensures Inv(v) ==> Inv(Become(v, p, s))
    ensures Evolves(w, v) ==> Evolves(w, Become(v, p, s))
  {
  }

  /** The clock and the user rows are not part of the invariant. */
  lemma UsersDoNotMatter(w: World, v: World)
    requires v.rows.tokens == w.rows.tokens && v.used == w.used && v.families == w.families && v.rotations == w.rotations
    ensures Inv(w) ==> Inv(v)
    ensures forall u: World | Evolves(u, w) :: Evolves(u, v)
  {
  }

  lemma FailuresDoNotMatter(w: World, v: World, failures: map<UserId, seq<Time>>)
    ensures Inv(v) ==> Inv(v.(failures := failures))
    ensures Evolves(w, v) ==> Evolves(w, v.(failures := failures))
  {
  }

  lemma LoginKeeps(w: World, p: ProcessId, h: TokenHash, f: Family, valid: bool, sanctioned: bool)
    requires Inv(w)
    ensures Inv(StepLogin(w, p, h, f, valid, sanctioned)) && Evolves(w, StepLogin(w, p, h, f, valid, sanctioned))
  {
    hide Inv, Evolves, ReplaceSession;
    Unchanged(w);
    if At(w, p).Prepared? && Fresh(w, h, f) {
      var s := At(w, p).session;
      var r := Login(w.rows, w.clock, s, valid, sanctioned, h, f);
      var v := w.(rows := r);
      if LoginResult(w.rows, w.clock, s.user, valid, sanctioned).LoggedIn? {
        ReplacedKeeps(w, s, h, f);
        UsersDoNotMatter(Opened(w, w.rows.(tokens := ReplaceSession(w.rows.tokens, w.clock, s, h, f)), s, h, f), Opened(w, r, s, h, f));
        v := Opened(w, r, s, h, f);
      } else {
        UsersDoNotMatter(w, v);
      }
      ProcessesDoNotMatter(w, v, p, Idle);
      FailuresDoNotMatter(w, Become(v, p, Idle), StepLogin(w, p, h, f, valid, sanctioned).failures);
    }
  }

  lemma CreateKeeps(w: World, p: ProcessId, h: TokenHash, f: Family, sanctioned: bool)
    requires Inv(w)
    ensures Inv(StepCreate(w, p, h, f, sanctioned)) && Evolves(w, StepCreate(w, p, h, f, sanctioned))
  {
    hide Inv, Evolves, ReplaceSession;
    Unchanged(w);
    ProcessesDoNotMatter(w, w, p, Idle);
    if At(w, p).Prepared? && Fresh(w, h, f) && !sanctioned {
      var s := At(w, p).session;
      ReplacedKeeps(w, s, h, f);
      ProcessesDoNotMatter(w, Opened(w, CreateSession(w.rows, w.clock, s, sanctioned, h, f), s, h, f), p, Idle);
    }
  }

  lemma StepKeeps(w: World, act: Action)
    requires Inv(w)
    ensures Inv(Step(w, act)) && Evolves(w, Step(w, act))
  {
    hide Inv, Evolves, StepLogin, StepCreate, StepRefresh, RevokeFamily, RevokeUser, DropExpired, RevokeOne, Narrowed;
    Unchanged(w);
    match act
    case Tick(ms) => UsersDoNotMatter(w, Step(w, act));
    case SetUser(u, deleted) => UsersDoNotMatter(w, Step(w, act));
    case Prepare(p, u, platform) => ProcessesDoNotMatter(w, w, p, Prepared(Session(u, platform, w.clock, w.clock + RefreshTtl(platform))));
    case CommitLogin(p, h, f, valid, sanctioned) => LoginKeeps(w, p, h, f, valid, sanctioned);
    case CommitAppeal(u, valid) => UsersDoNotMatter(w, Step(w, act));
    case CommitCreate(p, h, f, sanctioned) => CreateKeeps(w, p, h, f, sanctioned);
    case RefreshToken(h, next, sanctioned) => RefreshKeeps(w, h, next, sanctioned);
    case LogoutToken(u, h) =>
      RevokesNarrow(w.rows.tokens, w.clock, u, WEB, 0, h);
      NarrowedKeeps(w, RevokeOne(w.rows.tokens, w.clock, h));
    case FindTerminal(p, u, h) =>
      if h in w.rows.tokens { ProcessesDoNotMatter(w, w, p, Revoking(u, w.rows.tokens[h].family)); }
    case RevokeTerminal(p) =>
      if At(w, p).Revoking? {
        var ts := RevokeFamily(w.rows.tokens, w.clock, At(w, p).user, At(w, p).family);
        RevokesNarrow(w.rows.tokens, w.clock, At(w, p).user, WEB, At(w, p).family, 0);
        NarrowedKeeps(w, ts);
        ProcessesDoNotMatter(w, WithTokens(w, ts), p, Idle);
      }
    case RevokeAll(u) =>
      RevokesNarrow(w.rows.tokens, w.clock, u, WEB, 0, 0);
      NarrowedKeeps(w, RevokeUser(w.rows.tokens, w.clock, u));
    case Cleanup =>
      RevokesNarrow(w.rows.tokens, w.clock, 0, WEB, 0, 0);
      NarrowedKeeps(w, DropExpired(w.rows.tokens, w.clock));
  }

  // ----- Whole runs

  lemma EvolveTransitive(a: World, b: World, c: World)
    requires Evolves(a, b) && Evolves(b, c)
    ensures Evolves(a, c)
  {
    forall h | h in a.used
      ensures TokenEvolves(a.rows.tokens, c.rows.tokens, h)
    {
      assert TokenEvolves(a.rows.tokens, b.rows.tokens, h) && TokenEvolves(b.rows.tokens, c.rows.tokens, h);
    }
  }

  lemma {:induction false} RunKeeps(w: World, trace: seq<Action>)
    requires Inv(w)
    ensures Inv(Run(w, trace)) && Evolves(w, Run(w, trace))
  {
    hide Inv, Evolves, Step;
    if trace == [] {
      Unchanged(w);
    } else {
      var front := trace[..|trace| - 1];
      RunKeeps(w, front);
      StepKeeps(Run(w, front), trace[|trace| - 1]);
      EvolveTransitive(w, Run(w, front), Run(w, trace));
    }
  }

  lemma EveryRunKeeps(trace: seq<Action>)
    ensures Inv(Reached(trace))
  {
    RunKeeps(EmptyWorld, trace);
  }
}
