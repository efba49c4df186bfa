/** E-mail verification codes: the records, and the single statements and transactions that change them. */
module VerificationRows {
  import opened Options

  type RecordId = nat
  type UserId = nat
  type Email = string
  type Code = string
  type Time = nat

  const CODE_TTL_MS: nat := 15 * 60 * 1000
  const SEND_COOLDOWN_MS: nat := 60 * 1000
  const MAX_ATTEMPTS: nat := 5

  datatype Purpose = REGISTRATION | CHANGE_EMAIL | PASSWORD_RESET

  datatype Record = Record(
    purpose: Purpose, user: Option<UserId>, email: Option<Email>, token: Code, attempts: nat, expiresAt: Time,
    lastSendAttemptAt: Option<Time>, lastSentAt: Option<Time>)

  type Records = map<RecordId, Record>

  /** Who a code is requested for; `sameEmail` restricts reuse to a record for the same address. */
  datatype Request = Request(purpose: Purpose, user: Option<UserId>, email: Option<Email>, sameEmail: bool)

  /** Every caller names a user or an address. */
  predicate Named(q: Request) { q.user.Some? || q.email.Some? }

  /** What a code is anchored to: the user of the request, or else its address, for one purpose. */
  predicate SameAnchor(a: Request, b: Request) {
    a.purpose == b.purpose && a.user == b.user && (a.user.None? ==> a.email == b.email)
  }

  predicate Matches(x: Record, q: Request) {
    x.purpose == q.purpose && if q.user.Some? then x.user == q.user else x.email == q.email
  }

  predicate Reusable(x: Record, q: Request, now: Time) {
    x.expiresAt > now && (!q.sameEmail || x.email == q.email)
  }

  /** The records a request could reuse. */
  function InUse(rs: Records, q: Request, now: Time): set<RecordId> {
    set r | r in rs && Matches(rs[r], q) && Reusable(rs[r], q, now)
  }

  /** The two unique indexes: purpose with user, and purpose with address. */
  predicate Conflicts(rs: Records, q: Request) {
    exists r | r in rs :: rs[r].purpose == q.purpose &&
      ((q.user.Some? && rs[r].user == q.user) || (q.email.Some? && rs[r].email == q.email))
  }

  function NewRecord(q: Request, now: Time, code: Code): Record {
    Record(q.purpose, q.user, q.email, code, 0, now + CODE_TTL_MS, Some(now), None)
  }

  /** A send window opens when none was claimed in the minute before `now`. */
  predicate CanClaim(rs: Records, r: RecordId, now: Time) {
    r in rs && (rs[r].lastSendAttemptAt.None? || rs[r].lastSendAttemptAt.value + SEND_COOLDOWN_MS <= now)
  }

  function ClaimWindow(rs: Records, r: RecordId, now: Time): Records {
    if CanClaim(rs, r, now) then rs[r := rs[r].(lastSendAttemptAt := Some(now))] else rs
  }

  predicate CanMark(rs: Records, r: RecordId, stamp: Time) {
    r in rs && rs[r].lastSendAttemptAt == Some(stamp)
  }

  function MarkDelivered(rs: Records, r: RecordId, stamp: Time): Records {
    if CanMark(rs, r, stamp) then rs[r := rs[r].(lastSentAt := Some(stamp))] else rs
  }

  // ----- consumeVerification

  datatype Verdict = Missing | Expired | TooManyAttempts | WrongCode | Verified

  /** `matches` says whether the record still meets the condition it was found by. */
  function Judge(rs: Records, r: RecordId, guess: Code, now: Time, matches: bool): Verdict {
    if r !in rs || !matches then Missing
    else if rs[r].expiresAt <= now then Expired
    else if rs[r].attempts >= MAX_ATTEMPTS then TooManyAttempts
    else if rs[r].token != guess then (if rs[r].attempts + 1 >= MAX_ATTEMPTS then TooManyAttempts else WrongCode)
    else Verified
  }

  /** `callback` says whether the work guarded by the code succeeds; when it fails, everything is rolled back. */
  function Consume(rs: Records, r: RecordId, guess: Code, now: Time, matches: bool, callback: bool): Records {
    match Judge(rs, r, guess, now, matches)
    case Missing => rs
    case WrongCode => rs[r := rs[r].(attempts := rs[r].attempts + 1)]
    case Verified => if callback then rs - {r} else rs
    case _ => rs - {r}
  }
}

/** The table as the two services change it in place. */
module VerificationStore {
  import opened Options
  import opened R = VerificationRows
  import E = VerificationEffects

  class VerificationDatabase {
    var records: map<RecordId, Record>

    constructor ()
      ensures records == map[]
    {
      records := map[];
    }

    method FindFirst(q: Request) returns (found: Option<RecordId>)
      ensures found.Some? ==> found.value in records && Matches(records[found.value], q)
      ensures found.Some? ==> E.ForRequest(records[found.value], q)
      ensures found.None? ==> forall r | r in records :: !Matches(records[r], q) && !E.ForRequest(records[r], q)
    {
      if r :| r in records && Matches(records[r], q) {
        return Some(r);
      }
      return None;
    }

    method Create(r: RecordId, q: Request, now: Time, code: Code) returns (ok: bool)
      requires r !in records
      modifies this
      ensures ok <==> !Conflicts(old(records), q)
      ensures records == if ok then old(records)[r := NewRecord(q, now, code)] else old(records)
      ensures ok <==> !E.Taken(old(records), q)
      ensures if ok then E.Stores(old(records), records, r, q, now, code) else records == old(records)
    {
      E.RequestEffects(records, NewRecord(q, now, code), q, now);
      E.WindowEffects(records, r, q, now, code);
      if Conflicts(records, q) { return false; }
      records := records[r := Record(q.purpose, q.user, q.email, code, 0, now + CODE_TTL_MS, Some(now), None)];
      return true;
    }

    /** Whether this caller may send; otherwise whether the mail of the current window is known to be delivered. */
    method ClaimExisting(r: RecordId, now: Time) returns (shouldSend: bool, emailSent: bool)
      modifies this
      ensures records == ClaimWindow(old(records), r, now) && shouldSend == CanClaim(old(records), r, now)
      ensures emailSent <==> !shouldSend && r in records && records[r].lastSentAt == records[r].lastSendAttemptAt
      ensures shouldSend <==> E.WindowFree(old(records), r, now)
      ensures E.OpensWindow(old(records), records, r, now)
    {
      shouldSend, emailSent := false, false;
      if r in records && (records[r].lastSendAttemptAt.None? || records[r].lastSendAttemptAt.value <= now - SEND_COOLDOWN_MS) {
        records := records[r := records[r].(lastSendAttemptAt := Some(now))];
        return true, false;
      }
      if r in records {
        emailSent := records[r].lastSentAt == records[r].lastSendAttemptAt;
      }
    }

    method Mark(r: RecordId, stamp: Time)
      modifies this
      ensures records == MarkDelivered(old(records), r, stamp)
      ensures E.NotesDelivery(old(records), records, r, stamp)
    {
      if r in records && records[r].lastSendAttemptAt == Some(stamp) {
        records := records[r := records[r].(lastSentAt := Some(stamp))];
      }
    }

    method CheckVerificationCode(r: RecordId, guess: Code, now: Time, matches: bool) returns (v: Verdict)
      modifies this
      ensures v == Judge(old(records), r, guess, now, matches)
      ensures records == Consume(old(records), r, guess, now, matches, false)
      ensures E.Answers(old(records), r, guess, now, matches, v)
      ensures E.Guessed(old(records), records, r, v, false)
    {
      E.GuessEffects(records, r, guess, now, matches, false);
      if r !in records || !matches { return Missing; }
      var record := records[r];
      if record.expiresAt <= now {
        records := records - {r};
        return Expired;
      }
      if record.attempts >= MAX_ATTEMPTS {
        records := records - {r};
        return TooManyAttempts;
      }
      if record.token != guess {
        var nextAttempts := record.attempts + 1;
        if nextAttempts >= MAX_ATTEMPTS {
          records := records - {r};
          return TooManyAttempts;
        }
        records := records[r := record.(attempts := nextAttempts)];
        return WrongCode;
      }
      return Verified;
    }

    method ConsumeVerification(r: RecordId, guess: Code, now: Time, matches: bool, callback: bool) returns (ok: bool)
      modifies this
      ensures records == Consume(old(records), r, guess, now, matches, callback)
      ensures ok <==> Judge(old(records), r, guess, now, matches).Verified? && callback
      ensures exists v :: E.Answers(old(records), r, guess, now, matches, v) && E.Guessed(old(records), records, r, v, callback) &&
                          (ok <==> v.Verified? && callback)
    {
      E.GuessEffects(records, r, guess, now, matches, callback);
      var v := CheckVerificationCode(r, guess, now, matches);
      if !v.Verified? || !callback { return false; }
      records := records - {r};
      return true;
    }
  }
}

/** Any number of requests for codes, deliveries and guesses at once. */
module VerificationProtocol {
  import opened Options
  import opened VerificationRows

  type ProcessId = nat

  /**
   Where a request stands between two statements; `now` is the time it began, and `seen` the records it could have
   reused then.
   */
  datatype Process =
    | Idle
    | Deleting(q: Request, now: Time, seen: set<RecordId>, r: RecordId)
    | Creating(q: Request, now: Time, seen: set<RecordId>)
    | Recovering(q: Request, now: Time, seen: set<RecordId>)
    | Claiming(q: Request, now: Time, seen: set<RecordId>, r: RecordId)
    | Sending(r: RecordId, stamp: Time)
    | Delivered(r: RecordId, stamp: Time)

  /** What happened to a record over its whole life: the stamps of its windows, wrong guesses counted, and successes. */
  datatype History = History(windows: seq<Time>, wrong: nat, successes: nat)

  /** A claimed window: for which request, with which stamp, and when. A stamp can be older than the claim. */
  datatype Window = Window(r: RecordId, q: Request, stamp: Time, at: Time, seen: set<RecordId>)

  datatype World = World(
    records: Records, clock: Time, processes: map<ProcessId, Process>,
    history: map<RecordId, History>, delivered: set<(RecordId, Time)>, log: seq<Window>)

  datatype Action =
    | Tick(ms: nat)
    | Begin(p: ProcessId, q: Request, found: Option<RecordId>)
    | Delete(p: ProcessId)
    | Insert(p: ProcessId, r: RecordId, code: Code)
    | Recover(p: ProcessId, found: Option<RecordId>)
    | Claim(p: ProcessId)
    | Send(p: ProcessId)
    | Mark(p: ProcessId)
    | Guess(r: RecordId, guess: Code, matches: bool, callback: bool)
    | Discard(r: RecordId)
    | Stop(p: ProcessId)

  const EmptyWorld := World(map[], 0, map[], map[], {}, [])

  function At(w: World, p: ProcessId): Process {
    if p in w.processes then w.processes[p] else Idle
  }

  function Become(w: World, p: ProcessId, s: Process): World {
    w.(processes := w.processes[p := s])
  }

  predicate Sees(rs: Records, q: Request, found: Option<RecordId>) {
    match found
    case None => forall r | r in rs :: !Matches(rs[r], q)
    case Some(r) => r in rs && Matches(rs[r], q)
  }

  function StepBegin(w: World, p: ProcessId, q: Request, found: Option<RecordId>): World {
    if !At(w, p).Idle? || !Named(q) || !Sees(w.records, q, found) then w
    else
      var seen := InUse(w.records, q, w.clock);
      match found
      case None => Become(w, p, Creating(q, w.clock, seen))
      case Some(r) =>
        Become(w, p, if Reusable(w.records[r], q, w.clock) then Claiming(q, w.clock, seen, r) else Deleting(q, w.clock, seen, r))
  }

  function StepInsert(w: World, p: ProcessId, r: RecordId, code: Code): World {
    match At(w, p)
    case Creating(q, now, seen) =>
      if r in w.history then w
      else if Conflicts(w.records, q) then Become(w, p, Recovering(q, now, seen))
      else
        Become(w.(records := w.records[r := NewRecord(q, now, code)], history := w.history[r := History([now], 0, 0)],
                  log := w.log + [Window(r, q, now, w.clock, seen)]),
               p, Sending(r, now))
    case _ => w
  }

  function AddWindow(h: map<RecordId, History>, r: RecordId, stamp: Time): map<RecordId, History> {
    if r in h then h[r := h[r].(windows := h[r].windows + [stamp])] else h
  }

  function StepClaim(w: World, p: ProcessId): World {
    match At(w, p)
    case Claiming(q, now, seen, r) =>
      if CanClaim(w.records, r, now) then
        Become(w.(records := ClaimWindow(w.records, r, now), history := AddWindow(w.history, r, now),
                  log := w.log + [Window(r, q, now, w.clock, seen)]),
               p, Sending(r, now))
      else Become(w, p, Idle)
    case _ => w
  }

  /** Whether a verdict counts a wrong guess. */
  predicate CountsWrong(rs: Records, r: RecordId, guess: Code, now: Time, matches: bool) {
    r in rs && matches && rs[r].expiresAt > now && rs[r].attempts < MAX_ATTEMPTS && rs[r].token != guess
  }

  function StepGuess(w: World, r: RecordId, guess: Code, matches: bool, callback: bool): World {
    var w' := w.(records := Consume(w.records, r, guess, w.clock, matches, callback));
    if r !in w.history then w'
    else if CountsWrong(w.records, r, guess, w.clock, matches) then
      w'.(history := w.history[r := w.history[r].(wrong := w.history[r].wrong + 1)])
    else if Judge(w.records, r, guess, w.clock, matches).Verified? && callback then
      w'.(history := w.history[r := w.history[r].(successes := w.history[r].successes + 1)])
    else w'
  }

  function Step(w: World, act: Action): World {
    match act
    case Tick(ms) => w.(clock := w.clock + ms)
    case Begin(p, q, found) => StepBegin(w, p, q, found)
    case Delete(p) =>
      (match At(w, p)
       case Deleting(q, now, seen, r) => Become(w.(records := w.records - {r}), p, Creating(q, now, seen))
       case _ => w)
    case Insert(p, r, code) => StepInsert(w, p, r, code)
    case Recover(p, found) =>
      (match At(w, p)
       case Recovering(q, now, seen) =>
         if !Sees(w.records, q, found) then w
         else Become(w, p, match found case None => Idle case Some(r) => Claiming(q, now, seen, r))
       case _ => w)
    case Claim(p) => StepClaim(w, p)
    case Send(p) =>
      (match At(w, p)
       case Sending(r, stamp) => Become(w.(delivered := w.delivered + {(r, stamp)}), p, Delivered(r, stamp))
       case _ => w)
    case Mark(p) =>
      (match At(w, p)
       case Delivered(r, stamp) => Become(w.(records := MarkDelivered(w.records, r, stamp)), p, Idle)
       case _ => w)
    case Guess(r, guess, matches, callback) => StepGuess(w, r, guess, matches, callback)
    case Discard(r) => w.(records := w.records - {r})
    case Stop(p) => Become(w, p, Idle)
  }

  function Run(w: World, trace: seq<Action>): World {
    if trace == [] then w else Step(Run(w, trace[..|trace| - 1]), trace[|trace| - 1])
  }

  function Reached(trace: seq<Action>): World { Run(EmptyWorld, trace) }

  // ----- What every step keeps

  /** Windows at least a minute apart. */
  ghost predicate Spaced(ts: seq<Time>) {
    forall i, j | 0 <= i < j < |ts| :: ts[i] + SEND_COOLDOWN_MS <= ts[j]
  }

  ghost predicate HistoryOk(h: History) {
    h.windows != [] && Spaced(h.windows) && h.wrong <= MAX_ATTEMPTS && h.successes <= 1
  }

  /** A live record: its last window, its guesses, no success yet, and a delivery mark only for a delivered mail. */
  ghost predicate RecordOk(r: RecordId, x: Record, h: History, delivered: set<(RecordId, Time)>) {
    h.windows != [] && x.lastSendAttemptAt == Some(h.windows[|h.windows| - 1]) &&
    x.expiresAt == h.windows[0] + CODE_TTL_MS && x.attempts == h.wrong < MAX_ATTEMPTS && h.successes == 0 &&
    (x.lastSentAt.Some? ==> (r, x.lastSentAt.value) in delivered)
  }

  ghost predicate RecordsOk(rs: Records, history: map<RecordId, History>, delivered: set<(RecordId, Time)>) {
    (forall r | r in history :: HistoryOk(history[r])) &&
    forall r | r in rs :: r in history && RecordOk(r, rs[r], history[r], delivered)
  }

  /** A sender holds a claimed window of its record, and nobody else holds the same one. */
  ghost predicate HoldsWindow(s: Process, r: RecordId, stamp: Time) {
    s == Sending(r, stamp) || s == Delivered(r, stamp)
  }

  ghost predicate WindowClaimed(history: map<RecordId, History>, r: RecordId, stamp: Time) {
    r in history && stamp in history[r].windows
  }

  ghost predicate SendersOk(ps: map<ProcessId, Process>, history: map<RecordId, History>, delivered: set<(RecordId, Time)>) {
    (forall p, r, stamp | p in ps && HoldsWindow(ps[p], r, stamp) :: WindowClaimed(history, r, stamp)) &&
    (forall p, q, r, stamp | p in ps && q in ps && HoldsWindow(ps[p], r, stamp) && HoldsWindow(ps[q], r, stamp) :: p == q) &&
    (forall p | p in ps && ps[p].Delivered? :: (ps[p].r, ps[p].stamp) in delivered)
  }

  ghost predicate Inv(w: World) {
    RecordsOk(w.records, w.history, w.delivered) && SendersOk(w.processes, w.history, w.delivered)
  }

  // ----- What no step undoes

  /** What a record keeps while it lives. */
  ghost predicate SameCode(x: Record, x': Record) {
    x'.purpose == x.purpose && x'.user == x.user && x'.email == x.email && x'.token == x.token &&
    x'.expiresAt == x.expiresAt && x.attempts <= x'.attempts
  }

  /** Records that are gone stay gone, and histories only grow. */
  ghost predicate RecordsEvolve(rs: Records, history: map<RecordId, History>, rs': Records, history': map<RecordId, History>) {
    (forall r | r in history :: r in history') &&
    forall r | r in rs' && r in history :: r in rs && SameCode(rs[r], rs'[r])
  }

  ghost predicate Evolves(w: World, w': World) {
    RecordsEvolve(w.records, w.history, w'.records, w'.history)
  }

  // ----- The senders

  lemma ProcessMoves(w: World, p: ProcessId, s: Process)
    requires Inv(w) && !s.Sending? && !s.Delivered?
    ensures Inv(Become(w, p, s))
  {
    hide RecordsOk;
    var ps := w.processes[p := s];
    forall q, r, stamp | q in ps && HoldsWindow(ps[q], r, stamp)
      ensures q in w.processes && HoldsWindow(w.processes[q], r, stamp)
    {
    }
  }

  /** A new window, later than every one of its record before, gets its one sender. */
  lemma SenderAdded(ps: map<ProcessId, Process>, history: map<RecordId, History>, history': map<RecordId, History>,
                    delivered: set<(RecordId, Time)>, p: ProcessId, r: RecordId, stamp: Time)
    requires SendersOk(ps, history, delivered) && !WindowClaimed(history, r, stamp) && WindowClaimed(history', r, stamp)
    requires forall s, t | WindowClaimed(history, s, t) :: WindowClaimed(history', s, t)
    ensures SendersOk(ps[p := Sending(r, stamp)], history', delivered)
  {
    var ps' := ps[p := Sending(r, stamp)];
    forall q, s, t | q in ps' && HoldsWindow(ps'[q], s, t)
      ensures WindowClaimed(history', s, t) && (q != p ==> WindowClaimed(history, s, t))
    {
      if q != p { assert HoldsWindow(ps[q], s, t); }
    }
  }

  lemma SenderDelivers(ps: map<ProcessId, Process>, history: map<RecordId, History>, delivered: set<(RecordId, Time)>, p: ProcessId,
                       r: RecordId, stamp: Time)
    requires SendersOk(ps, history, delivered) && p in ps && ps[p] == Sending(r, stamp)
    ensures SendersOk(ps[p := Delivered(r, stamp)], history, delivered + {(r, stamp)})
  {
    var ps' := ps[p := Delivered(r, stamp)];
    assert HoldsWindow(ps[p], r, stamp);
    forall q, s, t | q in ps' && HoldsWindow(ps'[q], s, t)
      ensures HoldsWindow(ps[q], s, t)
    {
    }
  }

  lemma SendersKept(ps: map<ProcessId, Process>, history: map<RecordId, History>, history': map<RecordId, History>,
                    delivered: set<(RecordId, Time)>)
    requires SendersOk(ps, history, delivered)
    requires forall s, t | WindowClaimed(history, s, t) :: WindowClaimed(history', s, t)
    ensures SendersOk(ps, history', delivered)
  {
  }

  // ----- The records

  lemma RemovedKeeps(rs: Records, history: map<RecordId, History>, delivered: set<(RecordId, Time)>, r: RecordId)
    requires RecordsOk(rs, history, delivered)
    ensures RecordsOk(rs - {r}, history, delivered) && RecordsEvolve(rs, history, rs - {r}, history)
    ensures RecordsEvolve(rs, history, rs, history)
  {
    hide HistoryOk, RecordOk;
  }

  lemma InsertedKeeps(rs: Records, history: map<RecordId, History>, delivered: set<(RecordId, Time)>, q: Request, now: Time, code: Code,
                      r: RecordId)
    requires RecordsOk(rs, history, delivered) && r !in history
    ensures var rs', history' := rs[r := NewRecord(q, now, code)], history[r := History([now], 0, 0)];
            RecordsOk(rs', history', delivered) && RecordsEvolve(rs, history, rs', history') &&
            !WindowClaimed(history, r, now) && WindowClaimed(history', r, now) &&
            forall s, t | WindowClaimed(history, s, t) :: WindowClaimed(history', s, t)
  {
    hide RecordOk, HistoryOk;
    assert RecordOk(r, NewRecord(q, now, code), History([now], 0, 0), delivered) && HistoryOk(History([now], 0, 0)) by {
      FirstWindow(r, q, now, code, delivered);
    }
    assert now in [now];
  }

  lemma FirstWindow(r: RecordId, q: Request, now: Time, code: Code, delivered: set<(RecordId, Time)>)
    ensures RecordOk(r, NewRecord(q, now, code), History([now], 0, 0), delivered) && HistoryOk(History([now], 0, 0))
  {
  }

  /** A claimed window comes a minute after every earlier one. */
  lemma NextWindow(r: RecordId, x: Record, h: History, delivered: set<(RecordId, Time)>, now: Time)
    requires HistoryOk(h) && RecordOk(r, x, h, delivered)
    requires x.lastSendAttemptAt.None? || x.lastSendAttemptAt.value + SEND_COOLDOWN_MS <= now
    ensures var h' := h.(windows := h.windows + [now]);
            HistoryOk(h') && RecordOk(r, x.(lastSendAttemptAt := Some(now)), h', delivered) && now !in h.windows && now in h'.windows
  {
    var ts := h.windows;
    forall i | 0 <= i < |ts|
      ensures ts[i] + SEND_COOLDOWN_MS <= now
    {
      if i < |ts| - 1 { assert ts[i] + SEND_COOLDOWN_MS <= ts[|ts| - 1]; }
    }
    assert (ts + [now])[|ts|] == now;
  }

  lemma ClaimedKeeps(rs: Records, history: map<RecordId, History>, delivered: set<(RecordId, Time)>, r: RecordId, now: Time)
    requires RecordsOk(rs, history, delivered) && CanClaim(rs, r, now)
    ensures var rs', history' := ClaimWindow(rs, r, now), AddWindow(history, r, now);
            RecordsOk(rs', history', delivered) && RecordsEvolve(rs, history, rs', history') &&
            !WindowClaimed(history, r, now) && WindowClaimed(history', r, now) &&
            forall s, t | WindowClaimed(history, s, t) :: WindowClaimed(history', s, t)
  {
    hide RecordOk, HistoryOk;
    NextWindow(r, rs[r], history[r], delivered, now);
  }

  lemma MarkedKeeps(rs: Records, history: map<RecordId, History>, delivered: set<(RecordId, Time)>, r: RecordId, stamp: Time)
    requires RecordsOk(rs, history, delivered) && (r, stamp) in delivered
    ensures RecordsOk(MarkDelivered(rs, r, stamp), history, delivered) && RecordsEvolve(rs, history, MarkDelivered(rs, r, stamp), history)
  {
    hide HistoryOk;
  }

  lemma MoreDelivered(rs: Records, history: map<RecordId, History>, delivered: set<(RecordId, Time)>, r: RecordId, stamp: Time)
    requires RecordsOk(rs, history, delivered)
    ensures RecordsOk(rs, history, delivered + {(r, stamp)})
  {
    hide HistoryOk;
  }

  /** A record that goes may have one more wrong guess, or its one success, in its history. */
  lemma EndedKeeps(rs: Records, history: map<RecordId, History>, delivered: set<(RecordId, Time)>, r: RecordId, h: History)
    requires RecordsOk(rs, history, delivered) && r in history && HistoryOk(h)
    ensures RecordsOk(rs - {r}, history[r := h], delivered) && RecordsEvolve(rs, history, rs - {r}, history[r := h])
  {
    hide HistoryOk, RecordOk;
  }

  lemma CountedKeeps(rs: Records, history: map<RecordId, History>, delivered: set<(RecordId, Time)>, r: RecordId)
    requires RecordsOk(rs, history, delivered) && r in rs && rs[r].attempts + 1 < MAX_ATTEMPTS
    ensures var rs', history' := rs[r := rs[r].(attempts := rs[r].attempts + 1)], history[r := history[r].(wrong := history[r].wrong + 1)];
            RecordsOk(rs', history', delivered) && RecordsEvolve(rs, history, rs', history')
  {
    hide Spaced;
    assert RecordOk(r, rs[r], history[r], delivered) && HistoryOk(history[r]);
  }

  lemma GuessedKeeps(w: World, r: RecordId, guess: Code, matches: bool, callback: bool)
    requires RecordsOk(w.records, w.history, w.delivered)
    ensures var w' := StepGuess(w, r, guess, matches, callback);
            RecordsOk(w'.records, w'.history, w'.delivered) && RecordsEvolve(w.records, w.history, w'.records, w'.history)
  {
    hide HistoryOk, RecordOk, RecordsOk, RecordsEvolve;
    RemovedKeeps(w.records, w.history, w.delivered, r);
    if r in w.records {
      HistoriesGrow(w, r);
      var h := w.history[r];
      EndedKeeps(w.records, w.history, w.delivered, r, h.(wrong := h.wrong + 1));
      EndedKeeps(w.records, w.history, w.delivered, r, h.(successes := h.successes + 1));
      if w.records[r].attempts + 1 < MAX_ATTEMPTS { CountedKeeps(w.records, w.history, w.delivered, r); }
    }
  }

  lemma HistoriesGrow(w: World, r: RecordId)
    requires RecordsOk(w.records, w.history, w.delivered) && r in w.records
    ensures r in w.history && HistoryOk(w.history[r].(wrong := w.history[r].wrong + 1)) &&
            HistoryOk(w.history[r].(successes := w.history[r].successes + 1))
  {
    hide Spaced;
    assert RecordOk(r, w.records[r], w.history[r], w.delivered) && HistoryOk(w.history[r]);
  }

  lemma GuessKeepsWindows(w: World, r: RecordId, guess: Code, matches: bool, callback: bool)
    ensures forall s, t | WindowClaimed(w.history, s, t) ::
              WindowClaimed(StepGuess(w, r, guess, matches, callback).history, s, t)
  {
  }

  // ----- One step

  lemma StepKeeps(w: World, act: Action)
    requires Inv(w)
    ensures Inv(Step(w, act)) && Evolves(w, Step(w, act))
  {
    hide RecordsOk, SendersOk, RecordsEvolve, WindowClaimed, StepGuess, Reusable, Matches, CanClaim, ClaimWindow, AddWindow, NewRecord,
      Conflicts, MarkDelivered;
    RemovedKeeps(w.records, w.history, w.delivered, 0);
    match act
    case Tick(ms) =>
    case Begin(p, q, found) =>
      if StepBegin(w, p, q, found) != w { ProcessMoves(w, p, StepBegin(w, p, q, found).processes[p]); }
    case Delete(p) =>
      if At(w, p).Deleting? {
        RemovedKeeps(w.records, w.history, w.delivered, At(w, p).r);
        ProcessMoves(w.(records := w.records - {At(w, p).r}), p, Creating(At(w, p).q, At(w, p).now, At(w, p).seen));
      }
    case Insert(p, r, code) =>
      if At(w, p).Creating? && r !in w.history {
        var q, now := At(w, p).q, At(w, p).now;
        if Conflicts(w.records, q) {
          ProcessMoves(w, p, Recovering(q, now, At(w, p).seen));
        } else {
          InsertedKeeps(w.records, w.history, w.delivered, q, now, code, r);
          SenderAdded(w.processes, w.history, w.history[r := History([now], 0, 0)], w.delivered, p, r, now);
        }
      }
    case Recover(p, found) =>
      if Step(w, act) != w { ProcessMoves(w, p, Step(w, act).processes[p]); }
    case Claim(p) =>
      if At(w, p).Claiming? {
        var r, now := At(w, p).r, At(w, p).now;
        if CanClaim(w.records, r, now) {
          ClaimedKeeps(w.records, w.history, w.delivered, r, now);
          SenderAdded(w.processes, w.history, AddWindow(w.history, r, now), w.delivered, p, r, now);
        } else {
          ProcessMoves(w, p, Idle);
        }
      }
    case Send(p) =>
      if At(w, p).Sending? {
        SenderDelivers(w.processes, w.history, w.delivered, p, At(w, p).r, At(w, p).stamp);
        MoreDelivered(w.records, w.history, w.delivered, At(w, p).r, At(w, p).stamp);
      }
    case Mark(p) =>
      if At(w, p).Delivered? {
        MailIsDelivered(w, p);
        MarkedKeeps(w.records, w.history, w.delivered, At(w, p).r, At(w, p).stamp);
        ProcessMoves(w.(records := MarkDelivered(w.records, At(w, p).r, At(w, p).stamp)), p, Idle);
      }
    case Guess(r, guess, matches, callback) =>
      GuessedKeeps(w, r, guess, matches, callback);
      GuessLeavesProcesses(w, r, guess, matches, callback);
      GuessKeepsWindows(w, r, guess, matches, callback);
      SendersKept(w.processes, w.history, StepGuess(w, r, guess, matches, callback).history, w.delivered);
    case Discard(r) => RemovedKeeps(w.records, w.history, w.delivered, r);
    case Stop(p) => ProcessMoves(w, p, Idle);
  }

  lemma GuessLeavesProcesses(w: World, r: RecordId, guess: Code, matches: bool, callback: bool)
    ensures var w' := StepGuess(w, r, guess, matches, callback); w'.processes == w.processes && w'.delivered == w.delivered
  {
  }

  lemma MailIsDelivered(w: World, p: ProcessId)
    requires Inv(w) && At(w, p).Delivered?
    ensures (At(w, p).r, At(w, p).stamp) in w.delivered
  {
    hide RecordsOk;
  }

  // ----- Whole runs

  lemma EvolveTransitive(a: World, b: World, c: World)
    requires Evolves(a, b) && Evolves(b, c)
    ensures Evolves(a, c)
  {
  }

  lemma {:induction false} RunKeeps(w: World, trace: seq<Action>)
    requires Inv(w)
    ensures Inv(Run(w, trace)) && Evolves(w, Run(w, trace))
  {
    hide Step, RecordsOk, SendersOk, RecordsEvolve;
    if trace == [] {
      RemovedKeeps(w.records, w.history, w.delivered, 0);
    } else {
      var front := trace[..|trace| - 1];
      RunKeeps(w, front);
      StepKeeps(Run(w, front), trace[|trace| - 1]);
      EvolveTransitive(w, Run(w, front), Run(w, trace));
    }
  }

  lemma EveryRunKeeps(trace: seq<Action>)
    ensures Inv(Reached(trace))
  {
    RunKeeps(EmptyWorld, trace);
  }

  // ----- The theorems

  /** In every run, the stamps of a record's send windows are at least a minute apart. */
  lemma WindowsAreAMinuteApart(trace: seq<Action>, r: RecordId, i: nat, j: nat)
    requires r in Reached(trace).history && i < j < |Reached(trace).history[r].windows|
    ensures Reached(trace).history[r].windows[i] + SEND_COOLDOWN_MS <= Reached(trace).history[r].windows[j]
  {
    EveryRunKeeps(trace);
    assert HistoryOk(Reached(trace).history[r]);
  }

  /** A window has at most one sender. */
  lemma OneSenderPerWindow(trace: seq<Action>, p: ProcessId, q: ProcessId, r: RecordId, stamp: Time)
    requires HoldsWindow(At(Reached(trace), p), r, stamp) && HoldsWindow(At(Reached(trace), q), r, stamp)
    ensures p == q
  {
    EveryRunKeeps(trace);
  }

  /** However often it is sent again, a code expires fifteen minutes after its first window. */
  lemma ExpiryCountsFromTheFirstWindow(trace: seq<Action>, r: RecordId)
    requires r in Reached(trace).records
    ensures var w := Reached(trace);
            r in w.history && w.history[r].windows != [] && w.records[r].expiresAt == w.history[r].windows[0] + CODE_TTL_MS
  {
    EveryRunKeeps(trace);
    hide Reached;
    assert RecordOk(r, Reached(trace).records[r], Reached(trace).history[r], Reached(trace).delivered);
  }

  /** Sending again never extends a code, changes it, or forgives a wrong guess. */
  lemma ResendingKeepsTheCode(before: seq<Action>, after: seq<Action>, r: RecordId)
    requires r in Reached(before).records && r in Run(Reached(before), after).records
    ensures var x, x' := Reached(before).records[r], Run(Reached(before), after).records[r];
            x'.expiresAt == x.expiresAt && x'.token == x.token && x'.email == x.email && x.attempts <= x'.attempts
  {
    EveryRunKeeps(before);
    RunKeeps(Reached(before), after);
    hide Reached, Run;
    assert r in Reached(before).history;
  }

  /** A live record has had fewer than five wrong guesses, all counted; no record ever has more than five. */
  lemma GuessesAreBounded(trace: seq<Action>, r: RecordId)
    requires r in Reached(trace).history
    ensures Reached(trace).history[r].wrong <= MAX_ATTEMPTS
    ensures r in Reached(trace).records ==> Reached(trace).records[r].attempts == Reached(trace).history[r].wrong < MAX_ATTEMPTS
  {
    EveryRunKeeps(trace);
    hide Reached;
    assert HistoryOk(Reached(trace).history[r]);
  }

  /** A record yields at most one success, and none of its codes is accepted afterwards. */
  lemma OneSuccessPerRecord(before: seq<Action>, after: seq<Action>, r: RecordId)
    requires r in Reached(before).history
    ensures Reached(before).history[r].successes <= 1
    ensures Reached(before).history[r].successes == 1 ==> r !in Run(Reached(before), after).records
  {
    EveryRunKeeps(before);
    RunKeeps(Reached(before), after);
    hide Reached, Run;
    assert HistoryOk(Reached(before).history[r]);
  }

  /** A caller that is told the mail was sent is told so about the current window, and its mail was delivered. */
  lemma ReportedMailWasDelivered(trace: seq<Action>, r: RecordId)
    requires var w := Reached(trace);
             r in w.records && w.records[r].lastSentAt.Some? && w.records[r].lastSentAt == w.records[r].lastSendAttemptAt
    ensures var w := Reached(trace);
            r in w.history && w.history[r].windows != [] && (r, w.history[r].windows[|w.history[r].windows| - 1]) in w.delivered
  {
    EveryRunKeeps(trace);
    hide Reached;
    assert RecordOk(r, Reached(trace).records[r], Reached(trace).history[r], Reached(trace).delivered);
  }
}
