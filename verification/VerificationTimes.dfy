/** How far apart the mails for one address or user are claimed, exactly. */
module VerificationTimes {
  import opened Options
  import opened VerificationRows
  import opened VerificationProtocol

  // ----- What every step keeps

  /** The unique indexes hold: no two records share a purpose and a user, or a purpose and an address. */
  ghost predicate Rivals(x: Record, y: Record) {
    x.purpose == y.purpose && ((x.user.Some? && x.user == y.user) || (x.email.Some? && x.email == y.email))
  }

  ghost predicate IndexesOk(rs: Records) {
    forall r, s | r in rs && s in rs && Rivals(rs[r], rs[s]) :: r == s
  }

  /** A request began no later than now, and a record it could have reused is the one it claims. */
  ghost predicate RequestOk(s: Process, clock: Time) {
    match s
    case Deleting(q, now, seen, _) => now <= clock && seen == {}
    case Creating(q, now, seen) => now <= clock && seen == {}
    case Recovering(q, now, seen) => now <= clock && seen == {}
    case Claiming(q, now, seen, r) => now <= clock && seen <= {r}
    case _ => true
  }

  ghost predicate WindowOk(e: Window, history: map<RecordId, History>, clock: Time) {
    e.seen <= {e.r} && WindowClaimed(history, e.r, e.stamp) && e.stamp <= e.at <= clock
  }

  /** The later claim is no earlier, and for the same record its stamp is a minute later. */
  ghost predicate Follows(e: Window, f: Window) {
    e.at <= f.at && (e.r == f.r ==> e.stamp + SEND_COOLDOWN_MS <= f.stamp)
  }

  ghost predicate LogOk(log: seq<Window>, history: map<RecordId, History>, clock: Time) {
    (forall e | e in log :: WindowOk(e, history, clock)) && forall i, j | 0 <= i < j < |log| :: Follows(log[i], log[j])
  }

  ghost predicate TimesOk(w: World) {
    IndexesOk(w.records) && LogOk(w.log, w.history, w.clock) && forall p | p in w.processes :: RequestOk(w.processes[p], w.clock)
  }

  lemma InsertedIndexes(rs: Records, r: RecordId, q: Request, now: Time, code: Code)
    requires IndexesOk(rs) && !Conflicts(rs, q)
    ensures IndexesOk(rs[r := NewRecord(q, now, code)])
  {
  }

  /** Records change neither purpose nor anchor. */
  lemma NarrowedIndexes(rs: Records, rs': Records)
    requires IndexesOk(rs)
    requires forall r | r in rs' :: r in rs && rs'[r].purpose == rs[r].purpose && rs'[r].user == rs[r].user && rs'[r].email == rs[r].email
    ensures IndexesOk(rs')
  {
    forall r, s | r in rs' && s in rs' && Rivals(rs'[r], rs'[s])
      ensures r == s
    {
      assert Rivals(rs[r], rs[s]);
    }
  }

  lemma StepNarrows(w: World, act: Action)
    requires !act.Insert?
    ensures var rs, rs' := w.records, Step(w, act).records;
            forall r | r in rs' :: r in rs && rs'[r].purpose == rs[r].purpose && rs'[r].user == rs[r].user && rs'[r].email == rs[r].email
  {
    hide Matches, Reusable, Sees, InUse;
  }

  /** What a request matches is unique, so what it could reuse is what it found. */
  lemma SeenAtMost(rs: Records, q: Request, now: Time, found: Option<RecordId>)
    requires IndexesOk(rs) && Named(q) && Sees(rs, q, found)
    ensures var seen := InUse(rs, q, now);
            (found.None? ==> seen == {}) && (found.Some? ==> seen <= {found.value}) &&
            (found.Some? && !Reusable(rs[found.value], q, now) ==> seen == {})
  {
    var seen := InUse(rs, q, now);
    forall r | r in seen
      ensures found == Some(r)
    {
      if found.Some? { assert Rivals(rs[r], rs[found.value]); }
    }
  }

  lemma RequestsKept(w: World, act: Action)
    requires TimesOk(w)
    ensures forall p | p in Step(w, act).processes :: RequestOk(Step(w, act).processes[p], Step(w, act).clock)
  {
    if act.Begin? && Named(act.q) && Sees(w.records, act.q, act.found) { SeenAtMost(w.records, act.q, w.clock, act.found); }
    hide IndexesOk, LogOk, Matches, Reusable, Sees, InUse, CanClaim, ClaimWindow, Consume, Judge, CountsWrong, Conflicts, NewRecord,
      MarkDelivered, AddWindow, Named;
    hide StepGuess;
    if act.Guess? { GuessLeavesProcesses(w, act.r, act.guess, act.matches, act.callback); GuessLeavesLog(w, act); }
  }

  lemma GuessLeavesLog(w: World, act: Action)
    requires act.Guess?
    ensures Step(w, act).log == w.log && Step(w, act).clock == w.clock
  {
  }

  /** Windows are never taken back. */
  lemma WindowsKept(w: World, act: Action)
    requires Inv(w)
    ensures forall r, t | WindowClaimed(w.history, r, t) :: WindowClaimed(Step(w, act).history, r, t)
    ensures w.clock <= Step(w, act).clock
  {
    hide Inv, Matches, Reusable, Sees, InUse, Consume, Judge, CountsWrong, Conflicts;
  }

  lemma LogLater(log: seq<Window>, history: map<RecordId, History>, history': map<RecordId, History>, clock: Time, clock': Time)
    requires LogOk(log, history, clock) && clock <= clock'
    requires forall r, t | WindowClaimed(history, r, t) :: WindowClaimed(history', r, t)
    ensures LogOk(log, history', clock')
  {
    hide WindowClaimed, Follows;
  }

  lemma LogGrows(log: seq<Window>, e: Window, history: map<RecordId, History>, clock: Time)
    requires LogOk(log, history, clock) && WindowOk(e, history, clock) && forall d | d in log :: Follows(d, e)
    ensures LogOk(log + [e], history, clock)
  {
    hide WindowOk, Follows;
    var all := log + [e];
    forall d | d in all
      ensures WindowOk(d, history, clock)
    {
      assert d in log || d == e;
    }
    forall i, j | 0 <= i < j < |all|
      ensures Follows(all[i], all[j])
    {
      if j == |log| { assert all[i] in log; }
    }
  }

  /** A claim comes a minute after every earlier stamp of its record. */
  lemma ClaimFollows(w: World, r: RecordId, now: Time, e: Window, d: Window)
    requires Inv(w) && CanClaim(w.records, r, now) && WindowOk(d, w.history, w.clock)
    requires e.r == r && e.stamp == now && e.at == w.clock
    ensures Follows(d, e)
  {
    if d.r == r {
      var h := w.history[r];
      assert RecordOk(r, w.records[r], h, w.delivered) && HistoryOk(h);
      var i :| 0 <= i < |h.windows| && h.windows[i] == d.stamp;
      if i < |h.windows| - 1 { assert h.windows[i] + SEND_COOLDOWN_MS <= h.windows[|h.windows| - 1]; }
    }
  }

  lemma LoggedWindow(w: World, act: Action)
    requires Inv(w) && TimesOk(w) && (act.Insert? || act.Claim?) && Step(w, act).log != w.log
    ensures LogOk(Step(w, act).log, Step(w, act).history, Step(w, act).clock)
  {
    hide IndexesOk, Matches, Reusable, Conflicts;
    var w' := Step(w, act);
    var e := w'.log[|w.log|];
    assert w'.log == w.log + [e] && w'.clock == w.clock;
    assert RequestOk(At(w, act.p), w.clock);
    WindowsKept(w, act);
    LogLater(w.log, w.history, w'.history, w.clock, w'.clock);
    assert WindowOk(e, w'.history, w.clock) by { NewWindowClaimed(w, act); }
    forall d | d in w.log
      ensures Follows(d, e)
    {
      assert WindowOk(d, w.history, w.clock);
      if act.Claim? { ClaimFollows(w, e.r, e.stamp, e, d); }
    }
    LogGrows(w.log, e, w'.history, w.clock);
  }

  lemma NewWindowClaimed(w: World, act: Action)
    requires Inv(w) && (act.Insert? || act.Claim?) && Step(w, act).log != w.log
    ensures var w' := Step(w, act); WindowClaimed(w'.history, w'.log[|w.log|].r, w'.log[|w.log|].stamp)
  {
    hide Matches, Reusable, Conflicts;
    if act.Claim? { assert At(w, act.p).r in w.records && At(w, act.p).r in w.history; }
    var w' := Step(w, act);
    var e := w'.log[|w.log|];
    var ts := w'.history[e.r].windows;
    assert ts[|ts| - 1] == e.stamp;
  }

  lemma TimesStep(w: World, act: Action)
    requires Inv(w) && TimesOk(w)
    ensures TimesOk(Step(w, act))
  {
    RequestsKept(w, act);
    if act.Insert? {
      if At(w, act.p).Creating? && !Conflicts(w.records, At(w, act.p).q) {
        InsertedIndexes(w.records, act.r, At(w, act.p).q, At(w, act.p).now, act.code);
      }
    } else {
      StepNarrows(w, act);
      NarrowedIndexes(w.records, Step(w, act).records);
    }
    if Step(w, act).log != w.log {
      LogOnlyGrowsByClaims(w, act);
      LoggedWindow(w, act);
    } else {
      WindowsKept(w, act);
      LogLater(w.log, w.history, Step(w, act).history, w.clock, Step(w, act).clock);
    }
    hide Inv, IndexesOk, LogOk, RequestOk, Conflicts, NewRecord;
  }

  lemma LogOnlyGrowsByClaims(w: World, act: Action)
    requires Step(w, act).log != w.log
    ensures act.Insert? || act.Claim?
  {
  }

  lemma {:induction false} TimesRun(trace: seq<Action>)
    ensures TimesOk(Reached(trace))
  {
    hide TimesOk, Step, Inv;
    if trace == [] {
      assert TimesOk(EmptyWorld) by { NothingClaimed(); }
    } else {
      EveryRunKeeps(trace[..|trace| - 1]);
      TimesRun(trace[..|trace| - 1]);
      TimesStep(Reached(trace[..|trace| - 1]), trace[|trace| - 1]);
    }
  }

  lemma NothingClaimed()
    ensures TimesOk(EmptyWorld)
  {
  }

  // ----- How far apart

  /** Two claims in order, the earlier one no longer than `stall` after its request began. */
  ghost predicate Pair(w: World, i: nat, j: nat, stall: nat) {
    i < j < |w.log| && w.log[i].at <= w.log[i].stamp + stall
  }

  ghost predicate Apart(w: World, i: nat, j: nat, gap: nat)
    requires i < j < |w.log|
  {
    w.log[i].at + gap <= w.log[j].at
  }

  /** Claims of one record. */
  ghost predicate ApartOnRecord(trace: seq<Action>, i: nat, j: nat, stall: nat, gap: nat) {
    var w := Reached(trace);
    Pair(w, i, j, stall) && w.log[i].r == w.log[j].r ==> Apart(w, i, j, gap)
  }

  /** Claims for one address or user, when the later request found the record of the earlier claim reusable. */
  ghost predicate ApartInUse(trace: seq<Action>, i: nat, j: nat, stall: nat, gap: nat) {
    var w := Reached(trace);
    Pair(w, i, j, stall) && SameAnchor(w.log[i].q, w.log[j].q) && w.log[i].r in w.log[j].seen ==> Apart(w, i, j, gap)
  }

  /** Claims for one address or user, when it did not. */
  ghost predicate ApartOtherwise(trace: seq<Action>, i: nat, j: nat, stall: nat, gap: nat) {
    var w := Reached(trace);
    Pair(w, i, j, stall) && SameAnchor(w.log[i].q, w.log[j].q) && w.log[i].r !in w.log[j].seen ==> Apart(w, i, j, gap)
  }

  ghost predicate Allowed(stall: nat, gap: nat) { gap == 0 || gap + stall <= SEND_COOLDOWN_MS }

  /** A request that could reuse a record when it began claims a window of that record, or none. */
  lemma ReusableRecordIsClaimed(trace: seq<Action>, j: nat, r: RecordId)
    requires j < |Reached(trace).log| && r in Reached(trace).log[j].seen
    ensures r == Reached(trace).log[j].r
  {
    TimesRun(trace);
    hide Reached;
    assert WindowOk(Reached(trace).log[j], Reached(trace).history, Reached(trace).clock);
  }

  lemma PairFollows(trace: seq<Action>, i: nat, j: nat)
    requires i < j < |Reached(trace).log|
    ensures var log := Reached(trace).log;
            Follows(log[i], log[j]) && log[i].stamp <= log[i].at && log[j].stamp <= log[j].at && log[j].seen <= {log[j].r}
  {
    TimesRun(trace);
    hide Reached;
    assert WindowOk(Reached(trace).log[i], Reached(trace).history, Reached(trace).clock);
    assert WindowOk(Reached(trace).log[j], Reached(trace).history, Reached(trace).clock);
  }

  /**
   The claims of one record, and with them its mails: a request that stalls between reading the clock and its claim
   takes its stall away from the minute, and nothing better than that holds.
   */
  lemma ClaimsAreApartIff(stall: nat, gap: nat)
    ensures (forall trace, i, j :: ApartOnRecord(trace, i, j, stall, gap)) <==> Allowed(stall, gap)
  {
    hide Reached;
    if Allowed(stall, gap) {
      forall trace, i: nat, j: nat
        ensures ApartOnRecord(trace, i, j, stall, gap)
      {
        if i < j < |Reached(trace).log| { PairFollows(trace, i, j); }
      }
    } else {
      var trace := StalledRun(if stall <= SEND_COOLDOWN_MS then stall else SEND_COOLDOWN_MS);
      assert !ApartOnRecord(trace, 1, 2, stall, gap);
    }
  }

  /**
   The claims for one address or user. As long as a request finds the record of the earlier claim reusable, the same
   distance is kept. When it does not, because the code expired, was used, or was guessed at too often, the request
   makes a new record with a window of its own, and no distance at all is kept, not even without any stall.
   */
  lemma AnchorClaimsAreApartIff(stall: nat, gap: nat)
    ensures (forall trace, i, j :: ApartInUse(trace, i, j, stall, gap)) <==> Allowed(stall, gap)
    ensures (forall trace, i, j :: ApartOtherwise(trace, i, j, stall, gap)) <==> gap == 0
  {
    hide Reached;
    if Allowed(stall, gap) {
      forall trace, i: nat, j: nat
        ensures ApartInUse(trace, i, j, stall, gap)
      {
        if i < j < |Reached(trace).log| { PairFollows(trace, i, j); }
      }
    } else {
      var trace := StalledRun(if stall <= SEND_COOLDOWN_MS then stall else SEND_COOLDOWN_MS);
      assert !ApartInUse(trace, 1, 2, stall, gap);
    }
    if gap == 0 {
      forall trace, i: nat, j: nat
        ensures ApartOtherwise(trace, i, j, stall, gap)
      {
        if i < j < |Reached(trace).log| { PairFollows(trace, i, j); }
      }
    } else {
      var trace := GuessedAwayRun();
      assert !ApartOtherwise(trace, 0, 1, stall, gap);
    }
  }

  // ----- The runs

  lemma Then(trace: seq<Action>, act: Action) returns (longer: seq<Action>)
    ensures longer == trace + [act] && Reached(longer) == Step(Reached(trace), act)
  {
    longer := trace + [act];
    assert longer[..|trace|] == trace;
  }

  const SIGN_UP := Request(REGISTRATION, None, Some("a@b"), false)

  lemma FirstMail() returns (trace: seq<Action>)
    ensures Reached(trace) == World(map[0 := NewRecord(SIGN_UP, 0, "c")], 0, map[0 := Sending(0, 0)], map[0 := History([0], 0, 0)],
                                    {}, [Window(0, SIGN_UP, 0, 0, {})])
  {
    hide Run;
    trace := [];
    assert Reached(trace) == EmptyWorld by { NothingRun(); }
    trace := Then(trace, Begin(0, SIGN_UP, None));
    assert At(Reached(trace), 0) == Creating(SIGN_UP, 0, {});
    trace := Then(trace, Insert(0, 0, "c"));
  }

  lemma NothingRun()
    ensures Reached([]) == EmptyWorld
  {
  }

  /** The second request begins a minute after the first and stalls; the third begins a minute after the second. */
  lemma StalledRun(stall: nat) returns (trace: seq<Action>)
    requires stall <= SEND_COOLDOWN_MS
    ensures Reached(trace).log == [Window(0, SIGN_UP, 0, 0, {}),
                                   Window(0, SIGN_UP, SEND_COOLDOWN_MS, SEND_COOLDOWN_MS + stall, {0}),
                                   Window(0, SIGN_UP, 2 * SEND_COOLDOWN_MS, 2 * SEND_COOLDOWN_MS, {0})]
  {
    hide Run;
    trace := FirstMail();
    trace := Then(trace, Tick(SEND_COOLDOWN_MS));
    trace := Then(trace, Begin(1, SIGN_UP, Some(0)));
    assert At(Reached(trace), 1) == Claiming(SIGN_UP, SEND_COOLDOWN_MS, {0}, 0);
    trace := Then(trace, Tick(stall));
    trace := Then(trace, Claim(1));
    trace := Then(trace, Tick(SEND_COOLDOWN_MS - stall));
    trace := Then(trace, Begin(2, SIGN_UP, Some(0)));
    assert At(Reached(trace), 2) == Claiming(SIGN_UP, 2 * SEND_COOLDOWN_MS, {0}, 0);
    trace := Then(trace, Claim(2));
  }

  /** The ordinary way: a mail is sent again shortly before the code expires, and a new code is sent when it has. */
  lemma ExpiredRun(early: nat) returns (trace: seq<Action>)
    requires 1 <= early <= CODE_TTL_MS - SEND_COOLDOWN_MS
    ensures Reached(trace).log == [Window(0, SIGN_UP, 0, 0, {}),
                                   Window(0, SIGN_UP, CODE_TTL_MS - early, CODE_TTL_MS - early, {0}),
                                   Window(1, SIGN_UP, CODE_TTL_MS, CODE_TTL_MS, {})]
  {
    hide Run;
    trace := FirstMail();
    trace := Then(trace, Tick(CODE_TTL_MS - early));
    trace := Then(trace, Begin(1, SIGN_UP, Some(0)));
    assert At(Reached(trace), 1) == Claiming(SIGN_UP, CODE_TTL_MS - early, {0}, 0);
    trace := Then(trace, Claim(1));
    trace := Then(trace, Tick(early));
    trace := Then(trace, Begin(2, SIGN_UP, Some(0)));
    assert At(Reached(trace), 2) == Deleting(SIGN_UP, CODE_TTL_MS, {}, 0);
    trace := Then(trace, Delete(2));
    assert Reached(trace).records == map[];
    trace := Then(trace, Insert(2, 1, "d"));
  }

  /** Five wrong guesses remove the record, and the next request sends at once. */
  lemma GuessedAwayRun() returns (trace: seq<Action>)
    ensures Reached(trace).log == [Window(0, SIGN_UP, 0, 0, {}), Window(1, SIGN_UP, 0, 0, {})]
  {
    hide Run;
    trace := FirstMail();
    trace := Then(trace, Guess(0, "x", true, true));
    trace := Then(trace, Guess(0, "x", true, true));
    trace := Then(trace, Guess(0, "x", true, true));
    trace := Then(trace, Guess(0, "x", true, true));
    assert Reached(trace).records == map[0 := NewRecord(SIGN_UP, 0, "c").(attempts := 4)];
    trace := Then(trace, Guess(0, "x", true, true));
    assert Reached(trace).records == map[];
    trace := Then(trace, Begin(1, SIGN_UP, None));
    assert At(Reached(trace), 1) == Creating(SIGN_UP, 0, {});
    trace := Then(trace, Insert(1, 1, "d"));
  }
}
