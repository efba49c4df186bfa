/** What each login, refresh and logout comes to in every reached state. */
module SessionOutcomes {
  import opened Options
  import opened SessionRows
  import opened SessionEffects
  import opened SessionProtocol

  /**
   A refresh stores a new token exactly when the token it shows is unrevoked and unexpired and its user is present and
   not sanctioned; what else it does is told by the fields of that token and its user.
   */
  lemma RefreshRotatesIff(trace: seq<Action>, h: TokenHash, next: TokenHash, sanctioned: bool)
    requires h in Reached(trace).rows.tokens && next !in Reached(trace).used
    ensures var w := Reached(trace);
            var t, w' := w.rows.tokens[h], Step(w, RefreshToken(h, next, sanctioned));
            (next in w'.rows.tokens <==>
               t.revokedAt.None? && w.clock < t.expiresAt && !sanctioned && t.user in w.rows.users && !w.rows.users[t.user].deleted) &&
            Refreshes(w.rows, w'.rows, w.clock, h, next, sanctioned) &&
            RefreshAnswer(w.rows, w.clock, h, sanctioned, RefreshResult(w.rows, w.clock, h, sanctioned))
  {
    EveryRunKeeps(trace);
    var w := Reached(trace);
    hide Reached;
    TokensAreUsed(w);
    RefreshEffect(w.rows, w.clock, h, next, sanctioned);
    hide Inv, Refreshes, RefreshAnswer, Refresh, RefreshResult;
  }

  lemma TokensAreUsed(w: World)
    requires Inv(w)
    ensures w.rows.tokens.Keys <= w.used
  {
    hide SlotsOk, FamiliesOk;
  }

  /** A prepared session carries the moment it was prepared and the lifetime of its platform. */
  lemma PreparedSession(w: World, p: ProcessId, u: UserId, platform: Platform)
    ensures At(Step(w, Prepare(p, u, platform)), p) == Prepared(Session(u, platform, w.clock, w.clock + Lifetime(platform)))
  {
  }

  /** A login opens a session, and a new family, exactly for a right password of a known account, neither locked nor sanctioned. */
  lemma LoginOpensIff(w: World, p: ProcessId, h: TokenHash, f: Family, valid: bool, sanctioned: bool)
    requires At(w, p).Prepared? && Fresh(w, h, f)
    ensures var s, w' := At(w, p).session, Step(w, CommitLogin(p, h, f, valid, sanctioned));
            LogsIn(w.rows, w'.rows, w.clock, s, valid, sanctioned, h, f) &&
            (f in w'.families <==> Known(w.rows, s.user) && !Locked(w.rows.users[s.user], w.clock) && valid && !sanctioned)
  {
    LoginEffect(w.rows, w.clock, At(w, p).session, valid, sanctioned, h, f);
    hide Login, LogsIn;
  }

  lemma CreationOpensIff(w: World, p: ProcessId, h: TokenHash, f: Family, sanctioned: bool)
    requires At(w, p).Prepared? && Fresh(w, h, f)
    ensures var s, w' := At(w, p).session, Step(w, CommitCreate(p, h, f, sanctioned));
            w'.rows.users == w.rows.users &&
            if sanctioned then w'.rows == w.rows else OpensSession(w.rows.tokens, w'.rows.tokens, w.clock, s, h, f)
  {
    SlotEffect(w.rows.tokens, w.clock, At(w, p).session, h, f);
    hide ReplaceSession, OpensSession;
  }

  lemma AppealStep(w: World, u: UserId, valid: bool)
    ensures ChecksPassword(w.rows, Step(w, CommitAppeal(u, valid)).rows, w.clock, u, valid)
  {
    AppealEffect(w.rows, w.clock, u, valid);
    hide Appeal, ChecksPassword, LoginAnswer;
  }

  /** A logout ends the user's own session and no other. */
  lemma LogoutStep(w: World, u: UserId, h: TokenHash)
    ensures var r' := Step(w, LogoutToken(u, h)).rows;
            r'.users == w.rows.users &&
            Revokes(w.rows.tokens, r'.tokens, w.clock, if h in w.rows.tokens && w.rows.tokens[h].user == u then iset{h} else iset{})
  {
    LogoutEffect(w.rows, w.clock, u, h);
    hide Logout, Revokes;
  }

  /** A terminal is found by one of its user's tokens, and ending it revokes its family. */
  lemma TerminalSteps(w: World, p: ProcessId, u: UserId, h: TokenHash)
    ensures var w' := Step(w, FindTerminal(p, u, h));
            if h in w.rows.tokens && w.rows.tokens[h].user == u then At(w', p) == Revoking(u, w.rows.tokens[h].family) else w' == w
    ensures At(w, p).Revoking? ==>
              var s := At(w, p);
              Revokes(w.rows.tokens, Step(w, RevokeTerminal(p)).rows.tokens, w.clock, FamilyOf(w.rows.tokens, s.user, s.family))
  {
    if At(w, p).Revoking? { RevokingEffects(w.rows.tokens, w.clock, At(w, p).user, At(w, p).family, h); }
    hide RevokeFamily, FamilyOf, Revokes;
  }

  lemma RevokeAllStep(w: World, u: UserId)
    ensures Revokes(w.rows.tokens, Step(w, RevokeAll(u)).rows.tokens, w.clock, iset g | g in w.rows.tokens && w.rows.tokens[g].user == u)
  {
    RevokingEffects(w.rows.tokens, w.clock, u, 0, 0);
    hide RevokeUser, Revokes;
  }

  /** The cleanup removes what has expired and nothing else. */
  lemma CleanupStep(w: World)
    ensures var ts' := Step(w, Cleanup).rows.tokens;
            forall g | g in w.rows.tokens ::
              (g in ts' <==> w.clock <= w.rows.tokens[g].expiresAt) && (g in ts' ==> ts'[g] == w.rows.tokens[g])
  {
  }
}
