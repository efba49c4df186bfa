/** What each step of the verification codes does in a run: which guesses succeed, and which requests may send. */
module VerificationOutcomes {
  import opened Options
  import opened VerificationRows
  import opened VerificationEffects
  import opened VerificationProtocol

  /** The record is there, meets the condition it was looked up by, and was first sent less than fifteen minutes ago. */
  ghost predicate Live(w: World, r: RecordId, matches: bool) {
    matches && r in w.records && r in w.history && |w.history[r].windows| > 0 && w.clock < w.history[r].windows[0] + 900_000
  }

  lemma RecordFacts(trace: seq<Action>, r: RecordId)
    requires r in Reached(trace).records
    ensures var w := Reached(trace);
            r in w.history && w.records[r].attempts == w.history[r].wrong < 5 && |w.history[r].windows| > 0 &&
            w.records[r].expiresAt == w.history[r].windows[0] + 900_000 && w.history[r].successes == 0
  {
    EveryRunKeeps(trace);
    hide Reached;
    var w := Reached(trace);
    assert RecordOk(r, w.records[r], w.history[r], w.delivered);
  }

  /**
   In every run a guess succeeds exactly when the code is right and live, that is, within fifteen minutes of its first
   window and after fewer than five wrong guesses, and the work it guards succeeds.
   */
  lemma GuessSucceedsIff(trace: seq<Action>, r: RecordId, guess: Code, matches: bool, callback: bool)
    ensures var w := Reached(trace);
            var w' := Step(w, Guess(r, guess, matches, callback));
            r in w.history ==>
              r in w'.history && w'.history[r].windows == w.history[r].windows &&
              (w'.history[r].successes == w.history[r].successes + 1 <==>
                 Live(w, r, matches) && w.records[r].token == guess && callback) &&
              (w'.history[r].wrong == w.history[r].wrong + 1 <==> Live(w, r, matches) && w.records[r].token != guess)
    ensures var w := Reached(trace);
            var w' := Step(w, Guess(r, guess, matches, callback));
            r in w.records ==>
              (r !in w'.records <==>
                 matches && (!Live(w, r, matches) || (if w.records[r].token == guess then callback else w.history[r].wrong == 4)))
    ensures var w := Reached(trace);
            var w' := Step(w, Guess(r, guess, matches, callback));
            w'.clock == w.clock && w'.log == w.log && w'.processes == w.processes && OthersKept(w.records, w'.records, r)
  {
    var w := Reached(trace);
    hide Reached;
    if r in w.records { RecordFacts(trace, r); }
    GuessEffects(w.records, r, guess, w.clock, matches, callback);
  }

  /** A request reuses the record it found exactly when that one is still good; otherwise the record is deleted first. */
  lemma RequestBegins(w: World, p: ProcessId, q: Request, r: RecordId)
    requires At(w, p).Idle? && (q.user.Some? || q.email.Some?) && r in w.records && ForRequest(w.records[r], q)
    ensures var s := At(Step(w, Begin(p, q, Some(r))), p);
            if StillGood(w.records[r], q, w.clock) then s.Claiming? && s.r == r && s.q == q && s.now == w.clock
            else s.Deleting? && s.r == r && s.q == q && s.now == w.clock
    ensures Step(w, Begin(p, q, Some(r))).records == w.records
  {
    hide InUse;
    RequestEffects(w.records, w.records[r], q, w.clock);
  }

  /** Without a record one is created. */
  lemma RequestCreates(w: World, p: ProcessId, q: Request)
    requires At(w, p).Idle? && (q.user.Some? || q.email.Some?) && forall r | r in w.records :: !ForRequest(w.records[r], q)
    ensures var s := At(Step(w, Begin(p, q, None)), p); s.Creating? && s.q == q && s.now == w.clock
  {
    hide InUse;
    forall r | r in w.records
      ensures !Matches(w.records[r], q)
    {
      RequestEffects(w.records, w.records[r], q, w.clock);
    }
  }

  /** The insert stores the code and lets its request send, unless a record was there first; then that one is looked up. */
  lemma InsertStep(w: World, p: ProcessId, r: RecordId, code: Code)
    requires At(w, p).Creating? && r !in w.history
    ensures var q, now := At(w, p).q, At(w, p).now;
            var w' := Step(w, Insert(p, r, code));
            if Taken(w.records, q) then w'.records == w.records && At(w', p).Recovering? && At(w', p).q == q && At(w', p).now == now
            else Stores(w.records, w'.records, r, q, now, code) && At(w', p) == Sending(r, now) && w'.history[r] == History([now], 0, 0)
  {
    var q, now := At(w, p).q, At(w, p).now;
    RequestEffects(w.records, NewRecord(q, now, code), q, now);
    WindowEffects(w.records, r, q, now, code);
    hide Taken, Conflicts, Stores, NewRecord;
  }

  /** A request may send exactly when no window of its record was claimed in the minute before it began. */
  lemma ClaimStep(w: World, p: ProcessId)
    requires At(w, p).Claiming?
    ensures var r, now := At(w, p).r, At(w, p).now;
            var w' := Step(w, Claim(p));
            OpensWindow(w.records, w'.records, r, now) &&
            At(w', p) == if WindowFree(w.records, r, now) then Sending(r, now) else Idle
  {
    var r, now := At(w, p).r, At(w, p).now;
    WindowEffects(w.records, r, At(w, p).q, now, "");
    hide OpensWindow, WindowFree, CanClaim, ClaimWindow;
  }

  /** A mail goes out only for a claimed window, and its delivery is noted only for that window. */
  lemma MailSteps(w: World, p: ProcessId)
    ensures At(w, p).Sending? ==>
              var w' := Step(w, Send(p));
              w'.records == w.records && w'.delivered == w.delivered + {(At(w, p).r, At(w, p).stamp)} &&
              At(w', p) == Delivered(At(w, p).r, At(w, p).stamp)
    ensures At(w, p).Delivered? ==>
              var w' := Step(w, Mark(p));
              NotesDelivery(w.records, w'.records, At(w, p).r, At(w, p).stamp) && At(w', p) == Idle && w'.delivered == w.delivered
  {
    if At(w, p).Delivered? { WindowEffects(w.records, At(w, p).r, Request(REGISTRATION, None, None, false), At(w, p).stamp, ""); }
    hide NotesDelivery, MarkDelivered;
  }
}
