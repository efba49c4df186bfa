/** What the statements on verification codes do to the table, said on the fields of its rows. */
module VerificationEffects {
  import opened Options
  import R = VerificationRows

  type RecordId = R.RecordId
  type Records = R.Records
  type Time = R.Time

  ghost predicate OthersKept(rs: Records, rs': Records, r: RecordId) {
    forall s | s != r :: (s in rs' <==> s in rs) && (s in rs ==> rs'[s] == rs[s])
  }

  /** The record is for the user of the request, or, if it names none, for its address. */
  ghost predicate ForRequest(x: R.Record, q: R.Request) {
    x.purpose == q.purpose && (q.user.Some? ==> x.user == q.user) && (q.user.None? ==> x.email == q.email)
  }

  /** Not expired, and for the same address where that is asked for. */
  ghost predicate StillGood(x: R.Record, q: R.Request, now: Time) {
    now < x.expiresAt && (q.sameEmail ==> x.email == q.email)
  }

  /** Another record for the purpose has the user or the address. */
  ghost predicate Taken(rs: Records, q: R.Request) {
    exists r :: r in rs && rs[r].purpose == q.purpose &&
                ((q.user.Some? && rs[r].user == q.user) || (q.email.Some? && rs[r].email == q.email))
  }

  /** A new code: no guesses yet, good for fifteen minutes, its first window open and nothing known to be delivered. */
  ghost predicate Stores(rs: Records, rs': Records, r: RecordId, q: R.Request, now: Time, code: R.Code) {
    OthersKept(rs, rs', r) && r in rs' &&
    rs'[r].purpose == q.purpose && rs'[r].user == q.user && rs'[r].email == q.email && rs'[r].token == code &&
    rs'[r].attempts == 0 && rs'[r].expiresAt == now + 900_000 &&
    rs'[r].lastSendAttemptAt == Some(now) && rs'[r].lastSentAt == None
  }

  /** No window was claimed in the last minute. */
  ghost predicate WindowFree(rs: Records, r: RecordId, now: Time) {
    r in rs && (rs[r].lastSendAttemptAt.Some? ==> now >= rs[r].lastSendAttemptAt.value + 60_000)
  }

  ghost predicate SameCode(x: R.Record, x': R.Record) {
    x'.purpose == x.purpose && x'.user == x.user && x'.email == x.email && x'.token == x.token && x'.expiresAt == x.expiresAt
  }

  ghost predicate OpensWindow(rs: Records, rs': Records, r: RecordId, now: Time) {
    if !WindowFree(rs, r, now) then rs' == rs
    else OthersKept(rs, rs', r) && r in rs' && SameCode(rs[r], rs'[r]) && rs'[r].attempts == rs[r].attempts &&
         rs'[r].lastSendAttemptAt == Some(now) && rs'[r].lastSentAt == rs[r].lastSentAt
  }

  /** Delivery is noted only while the window is still the one that was used. */
  ghost predicate NotesDelivery(rs: Records, rs': Records, r: RecordId, stamp: Time) {
    if !(r in rs && rs[r].lastSendAttemptAt == Some(stamp)) then rs' == rs
    else OthersKept(rs, rs', r) && r in rs' && SameCode(rs[r], rs'[r]) && rs'[r].attempts == rs[r].attempts &&
         rs'[r].lastSendAttemptAt == Some(stamp) && rs'[r].lastSentAt == Some(stamp)
  }

  /**
   What a guess is told. An expired record never verifies, whatever the guess; before that the right code does unless
   five guesses have been wrong; and the fifth wrong guess is one too many.
   */
  ghost predicate Answers(rs: Records, r: RecordId, guess: R.Code, now: Time, matches: bool, v: R.Verdict) {
    if !(r in rs && matches) then v.Missing?
    else if now >= rs[r].expiresAt then v.Expired?
    else
      (v.Verified? <==> rs[r].attempts < 5 && rs[r].token == guess) &&
      (v.WrongCode? <==> rs[r].attempts < 4 && rs[r].token != guess) &&
      (v.TooManyAttempts? <==> rs[r].attempts >= 5 || (rs[r].attempts == 4 && rs[r].token != guess))
  }

  /** What it leaves: a wrong guess counts; a code that expired, was guessed at too often or was used is gone. */
  ghost predicate Guessed(rs: Records, rs': Records, r: RecordId, v: R.Verdict, used: bool) {
    OthersKept(rs, rs', r) &&
    (r in rs' <==> r in rs && (v.Missing? || v.WrongCode? || (v.Verified? && !used))) &&
    (r in rs' ==> SameCode(rs[r], rs'[r]) && rs'[r].attempts == rs[r].attempts + (if v.WrongCode? then 1 else 0) &&
                  rs'[r].lastSendAttemptAt == rs[r].lastSendAttemptAt && rs'[r].lastSentAt == rs[r].lastSentAt)
  }

  lemma RequestEffects(rs: Records, x: R.Record, q: R.Request, now: Time)
    ensures R.Matches(x, q) <==> ForRequest(x, q)
    ensures R.Reusable(x, q, now) <==> StillGood(x, q, now)
    ensures R.Conflicts(rs, q) <==> Taken(rs, q)
  {
  }

  lemma WindowEffects(rs: Records, r: RecordId, q: R.Request, now: Time, code: R.Code)
    ensures Stores(rs, rs[r := R.NewRecord(q, now, code)], r, q, now, code)
    ensures R.CanClaim(rs, r, now) <==> WindowFree(rs, r, now)
    ensures OpensWindow(rs, R.ClaimWindow(rs, r, now), r, now)
    ensures NotesDelivery(rs, R.MarkDelivered(rs, r, now), r, now)
  {
  }

  lemma GuessEffects(rs: Records, r: RecordId, guess: R.Code, now: Time, matches: bool, used: bool)
    ensures Answers(rs, r, guess, now, matches, R.Judge(rs, r, guess, now, matches))
    ensures Guessed(rs, R.Consume(rs, r, guess, now, matches, used), r, R.Judge(rs, r, guess, now, matches), used)
  {
  }
}
