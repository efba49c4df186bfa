/** When a tip is paid and a reward given, what they move, and what the caller is told, by the fields of the rows alone. */
module EconomyEffects {
  import opened Options
  import opened EconomyRows

  const BIGINT: nat := 9_223_372_036_854_775_807
  const INT32: nat := 2_147_483_647

  // ----- Tips

  ghost predicate IsFor(e: Entry, q: Tip) {
    e.TipEntry? && e.sender == UserWallet(q.sender) && e.request == q.request
  }

  ghost predicate KeyUnused(ledger: seq<Entry>, q: Tip) {
    forall i | 0 <= i < |ledger| :: !IsFor(ledger[i], q)
  }

  ghost predicate WalletsThere(r: Rows, q: Tip) {
    UserWallet(q.sender) in r.wallets && UserWallet(q.recipient) in r.wallets && PlatformWallet in r.wallets
  }

  /** The thread or moment exists and is the recipient's, or the target is the recipient. */
  ghost predicate TargetIsTheirs(r: Rows, q: Tip) {
    if q.target.UserTarget? then q.target.user == q.recipient
    else q.target in r.contents && r.contents[q.target].owner == q.recipient
  }

  /** The recipient's share, 85 percent rounded down. */
  function RecipientShare(amount: nat): nat { amount * 85 / 100 }

  ghost predicate FitsColumns(r: Rows, q: Tip)
    requires WalletsThere(r, q)
  {
    r.wallets[UserWallet(q.recipient)].balance + RecipientShare(q.amount) <= BIGINT &&
    r.wallets[UserWallet(q.recipient)].tipTotal + q.amount <= BIGINT &&
    r.wallets[UserWallet(q.recipient)].tipCount + 1 <= INT32 &&
    r.wallets[PlatformWallet].balance + q.amount - RecipientShare(q.amount) <= BIGINT &&
    (q.target in r.contents ==> r.contents[q.target].tipTotal + q.amount <= BIGINT)
  }

  /** Everything a tip needs. */
  ghost predicate Payable(r: Rows, q: Tip, alive: bool, permitted: bool) {
    WalletsThere(r, q) && alive && permitted && KeyUnused(r.ledger, q) && TargetIsTheirs(r, q) &&
    q.amount <= r.wallets[UserWallet(q.sender)].balance && FitsColumns(r, q)
  }

  /** The amount leaves the sender; the recipient gets the share and one tip more, the platform the rest. */
  ghost predicate MovesMoney(r: Rows, r': Rows, q: Tip)
    requires WalletsThere(r, q) && q.amount <= r.wallets[UserWallet(q.sender)].balance
  {
    var from, to, fee := r.wallets[UserWallet(q.sender)], r.wallets[UserWallet(q.recipient)], r.wallets[PlatformWallet];
    r'.wallets.Keys == r.wallets.Keys &&
    r'.wallets[UserWallet(q.sender)] == Wallet(from.balance - q.amount, from.tipTotal, from.tipCount) &&
    r'.wallets[UserWallet(q.recipient)] ==
      Wallet(to.balance + RecipientShare(q.amount), to.tipTotal + q.amount, to.tipCount + 1) &&
    r'.wallets[PlatformWallet] == Wallet(fee.balance + (q.amount - RecipientShare(q.amount)), fee.tipTotal, fee.tipCount) &&
    forall w | w in r.wallets && w != UserWallet(q.sender) && w != UserWallet(q.recipient) && w != PlatformWallet ::
      r'.wallets[w] == r.wallets[w]
  }

  /** The thread or moment counts the whole amount; a tip to a member counts for none. */
  ghost predicate CountsTip(r: Rows, r': Rows, q: Tip) {
    r'.contents.Keys == r.contents.Keys &&
    forall t | t in r.contents ::
      r'.contents[t] == if t == q.target && !t.UserTarget? then Content(r.contents[t].owner, r.contents[t].tipTotal + q.amount)
                        else r.contents[t]
  }

  ghost function NewTotal(r: Rows, q: Tip): Option<nat> {
    if q.target in r.contents && !q.target.UserTarget? then Some(r.contents[q.target].tipTotal + q.amount) else None
  }

  /** One entry more, with the amounts and the state they leave. */
  ghost predicate Recorded(r: Rows, r': Rows, q: Tip)
    requires WalletsThere(r, q) && q.amount <= r.wallets[UserWallet(q.sender)].balance
  {
    var to := r.wallets[UserWallet(q.recipient)];
    |r'.ledger| == |r.ledger| + 1 && r'.ledger[..|r.ledger|] == r.ledger &&
    r'.ledger[|r.ledger|] ==
      TipEntry(UserWallet(q.sender), UserWallet(q.recipient), q.target, q.amount, RecipientShare(q.amount),
               q.amount - RecipientShare(q.amount), r.wallets[UserWallet(q.sender)].balance - q.amount,
               to.balance + RecipientShare(q.amount),
               r.wallets[PlatformWallet].balance + (q.amount - RecipientShare(q.amount)), NewTotal(r, q),
               to.tipTotal + q.amount, to.tipCount + 1, q.request, (q.target, q.amount))
  }

  ghost predicate Announced(r: Rows, r': Rows, q: Tip) {
    |r.ledger| in r'.outbox &&
    (|r.ledger| !in r.outbox ==> r'.outbox[|r.ledger|] == TipCompleted(|r.ledger|, q.recipient, q.target, q.amount, NewTotal(r, q))) &&
    forall i | i in r.outbox :: i in r'.outbox && r'.outbox[i] == r.outbox[i]
  }

  ghost predicate Pays(r: Rows, r': Rows, q: Tip, alive: bool, permitted: bool) {
    if Payable(r, q, alive, permitted) then
      MovesMoney(r, r', q) && CountsTip(r, r', q) && Recorded(r, r', q) && Announced(r, r', q) && r'.checkIns == r.checkIns
    else r' == r
  }

  /** The stored amounts of the last entry with this key. */
  ghost predicate AnswersFrom(ledger: seq<Entry>, q: Tip, a: Result<Response, Error>) {
    exists i :: 0 <= i < |ledger| && IsFor(ledger[i], q) && (forall j | i < j < |ledger| :: !IsFor(ledger[j], q)) &&
      a == if ledger[i].hash != (q.target, q.amount) then Err(KeyReused)
           else Ok(Response(i, ledger[i].gross, ledger[i].recipientAmount, ledger[i].platformAmount, ledger[i].senderBalanceAfter,
                            ledger[i].contentTotalAfter, ledger[i].tipTotalAfter, ledger[i].tipCountAfter))
  }

  /** What the caller is told: the first thing that is missing, an earlier answer, or what the tip has moved. */
  ghost predicate TipAnswer(r: Rows, q: Tip, alive: bool, permitted: bool, a: Result<Response, Error>) {
    if !WalletsThere(r, q) then a == Err(UserNotFound)
    else if !alive then a == Err(Deactivated)
    else if !KeyUnused(r.ledger, q) then AnswersFrom(r.ledger, q, a)
    else if !permitted then a == Err(NotAllowed)
    else if !TargetIsTheirs(r, q) then a == Err(TargetNotFound)
    else if r.wallets[UserWallet(q.sender)].balance < q.amount then a == Err(Insufficient)
    else if !FitsColumns(r, q) then a == Err(Overflow)
    else
      var from, to := r.wallets[UserWallet(q.sender)], r.wallets[UserWallet(q.recipient)];
      a == Ok(Response(|r.ledger|, q.amount, q.amount * 85 / 100, q.amount - q.amount * 85 / 100, from.balance - q.amount,
                       NewTotal(r, q), to.tipTotal + q.amount, to.tipCount + 1))
  }

  /** The answer found by reading the ledger alone. */
  ghost predicate ReadReply(ledger: seq<Entry>, q: Tip, a: Option<Result<Response, Error>>) {
    if KeyUnused(ledger, q) then a.None? else a.Some? && AnswersFrom(ledger, q, a.value)
  }

  /** One run of the transaction: what it moves, and what it says. It pays exactly when the tip is payable. */
  ghost predicate TipOutcome(r: Rows, r': Rows, q: Tip, alive: bool, permitted: bool, a: Result<Response, Error>) {
    Pays(r, r', q, alive, permitted) && TipAnswer(r, q, alive, permitted, a) &&
    (|r'.ledger| == |r.ledger| + 1 <==> Payable(r, q, alive, permitted))
  }

  ghost predicate FirstOther(attempts: seq<Attempt>, i: nat, a: Attempt) {
    i < |attempts| && attempts[i] == a && a != SerializationFailure && forall j | 0 <= j < i :: attempts[j] == SerializationFailure
  }

  /** The first attempt that the database does not roll back as a serialization failure decides. */
  ghost predicate PayOutcome(r: Rows, r': Rows, q: Tip, alive: bool, permitted: bool, attempts: seq<Attempt>,
                             a: Result<Response, Error>) {
    if exists i: nat :: FirstOther(attempts, i, Runs) then TipOutcome(r, r', q, alive, permitted, a)
    else
      r' == r &&
      if exists i: nat :: FirstOther(attempts, i, UniqueConflict) then
        (if KeyUnused(r.ledger, q) then a == Err(UniqueViolation) else AnswersFrom(r.ledger, q, a))
      else a == Err(Conflict)
  }

  // ----- Check-ins

  ghost predicate Rewardable(r: Rows, u: UserId, date: DateKey, reward: nat, alive: bool) {
    alive && UserWallet(u) in r.wallets && (u, date) !in r.checkIns && r.wallets[UserWallet(u)].balance + reward <= BIGINT
  }

  ghost predicate GivesReward(r: Rows, r': Rows, u: UserId, date: DateKey, reward: nat, alive: bool) {
    if Rewardable(r, u, date, reward, alive) then
      var x := r.wallets[UserWallet(u)];
      r'.contents == r.contents && r'.outbox == r.outbox && r'.wallets.Keys == r.wallets.Keys &&
      r'.wallets[UserWallet(u)] == Wallet(x.balance + reward, x.tipTotal, x.tipCount) &&
      (forall w | w in r.wallets && w != UserWallet(u) :: r'.wallets[w] == r.wallets[w]) &&
      |r'.ledger| == |r.ledger| + 1 && r'.ledger[..|r.ledger|] == r.ledger &&
      r'.ledger[|r.ledger|] == CheckInEntry(UserWallet(u), reward, x.balance + reward, x.tipTotal, x.tipCount, date) &&
      (u, date) in r'.checkIns && r'.checkIns[(u, date)] == CheckIn(|r.ledger|, reward) &&
      forall k | k != (u, date) :: (k in r'.checkIns <==> k in r.checkIns) && (k in r.checkIns ==> r'.checkIns[k] == r.checkIns[k])
    else r' == r
  }

  // ----- The transactions do that

  lemma {:induction false} FindTipIsLast(ledger: seq<Entry>, q: Tip)
    ensures match FindTip(ledger, UserWallet(q.sender), q.request)
            case None => KeyUnused(ledger, q)
            case Some(i) => i < |ledger| && IsFor(ledger[i], q) && forall j | i < j < |ledger| :: !IsFor(ledger[j], q)
  {
    if ledger != [] && !IsFor(ledger[|ledger| - 1], q) {
      FindTipIsLast(ledger[..|ledger| - 1], q);
      assert forall j | 0 <= j < |ledger| - 1 :: ledger[..|ledger| - 1][j] == ledger[j];
    }
  }

  lemma ReplayEffect(ledger: seq<Entry>, q: Tip)
    ensures FindReplay(ledger, q).Fresh? <==> KeyUnused(ledger, q)
    ensures FindReplay(ledger, q).Replay? ==> AnswersFrom(ledger, q, Ok(TipResponse(ledger, FindReplay(ledger, q).entry)))
    ensures FindReplay(ledger, q).Reused? ==> AnswersFrom(ledger, q, Err(KeyReused))
    ensures ReadReply(ledger, q, ReadAnswer(ledger, q))
  {
    FindTipIsLast(ledger, q);
    hide FindTip, KeyUnused;
    var found := FindTip(ledger, UserWallet(q.sender), q.request);
    if found.Some? { assert !KeyUnused(ledger, q) by { SomeoneUsesKey(ledger, q, found.value); } }
  }

  lemma SomeoneUsesKey(ledger: seq<Entry>, q: Tip, i: nat)
    requires i < |ledger| && IsFor(ledger[i], q)
    ensures !KeyUnused(ledger, q)
  {
  }

  lemma VerdictIff(r: Rows, q: Tip, alive: bool, permitted: bool)
    ensures TipVerdict(r, q, alive, permitted).Paid? <==> Payable(r, q, alive, permitted)
  {
    ReplayEffect(r.ledger, q);
    hide FindReplay, KeyUnused, AnswersFrom, ReadReply, ReadAnswer;
  }

  lemma PaysEffect(r: Rows, q: Tip, alive: bool, permitted: bool)
    requires q.sender != q.recipient
    ensures Pays(r, TipTransaction(r, q, alive, permitted), q, alive, permitted)
    ensures |TipTransaction(r, q, alive, permitted).ledger| == |r.ledger| + 1 <==> Payable(r, q, alive, permitted)
  {
    VerdictIff(r, q, alive, permitted);
    if Payable(r, q, alive, permitted) { PaidEffect(r, q, alive, permitted); }
    hide TipEntryFor, Moved, Tipped, Payable, MovesMoney, CountsTip, Recorded, Announced;
  }

  lemma PaidEffect(r: Rows, q: Tip, alive: bool, permitted: bool)
    requires q.sender != q.recipient && Payable(r, q, alive, permitted) && TipVerdict(r, q, alive, permitted).Paid?
    ensures var r' := TipTransaction(r, q, alive, permitted);
            MovesMoney(r, r', q) && CountsTip(r, r', q) && Recorded(r, r', q) && Announced(r, r', q) && r'.checkIns == r.checkIns
  {
    hide TipVerdict, KeyUnused, TargetIsTheirs, FitsColumns;
    var r' := TipTransaction(r, q, alive, permitted);
    assert r'.ledger == r.ledger + [TipEntryFor(r, q)] && r'.wallets == Moved(r, q) && r'.contents == Tipped(r, q);
    assert TotalAfter(Tipped(r, q), q) == NewTotal(r, q);
  }

  lemma AnswerEffect(r: Rows, q: Tip, alive: bool, permitted: bool)
    requires q.sender != q.recipient
    ensures TipAnswer(r, q, alive, permitted, AnswerOf(r, q, alive, permitted))
  {
    ReplayEffect(r.ledger, q);
    hide FindReplay, KeyUnused, AnswersFrom, ReadReply, ReadAnswer;
  }

  lemma TipEffect(r: Rows, q: Tip, alive: bool, permitted: bool)
    requires q.sender != q.recipient
    ensures TipOutcome(r, TipTransaction(r, q, alive, permitted), q, alive, permitted, AnswerOf(r, q, alive, permitted))
  {
    PaysEffect(r, q, alive, permitted);
    AnswerEffect(r, q, alive, permitted);
    hide Pays, TipAnswer, Payable, TipTransaction, AnswerOf;
  }

  lemma {:induction false} DecidingIsFirst(attempts: seq<Attempt>)
    ensures forall a :: Deciding(attempts) == Some(a) <==> exists i: nat :: FirstOther(attempts, i, a)
  {
    if attempts != [] {
      if attempts[0] != SerializationFailure {
        assert FirstOther(attempts, 0, attempts[0]);
      } else {
        DecidingIsFirst(attempts[1..]);
        FirstOtherShifts(attempts, Runs);
        FirstOtherShifts(attempts, UniqueConflict);
        FirstOtherShifts(attempts, SerializationFailure);
      }
    }
  }

  lemma FirstOtherShifts(attempts: seq<Attempt>, a: Attempt)
    requires attempts != [] && attempts[0] == SerializationFailure
    ensures (exists i: nat :: FirstOther(attempts, i, a)) <==> exists i: nat :: FirstOther(attempts[1..], i, a)
  {
    if i: nat :| FirstOther(attempts, i, a) {
      assert FirstOther(attempts[1..], i - 1, a);
    }
    if i: nat :| FirstOther(attempts[1..], i, a) {
      assert forall j | 0 < j <= i :: attempts[j] == attempts[1..][j - 1];
      assert FirstOther(attempts, i + 1, a);
    }
  }

  /** The two ways a deciding attempt ends, and none. */
  lemma PayEffect(r: Rows, q: Tip, alive: bool, permitted: bool, attempts: seq<Attempt>)
    requires q.sender != q.recipient
    ensures match Deciding(attempts)
            case Some(Runs) =>
              PayOutcome(r, TipTransaction(r, q, alive, permitted), q, alive, permitted, attempts, AnswerOf(r, q, alive, permitted))
            case Some(_) =>
              PayOutcome(r, r, q, alive, permitted, attempts,
                         match ReadAnswer(r.ledger, q) case Some(answer) => answer case None => Err(UniqueViolation))
            case None => PayOutcome(r, r, q, alive, permitted, attempts, Err(Conflict))
  {
    DecidingIsFirst(attempts);
    assert Deciding(attempts) == Some(Runs) <==> exists i: nat :: FirstOther(attempts, i, Runs);
    assert Deciding(attempts) == Some(UniqueConflict) <==> exists i: nat :: FirstOther(attempts, i, UniqueConflict);
    TipEffect(r, q, alive, permitted);
    ReplayEffect(r.ledger, q);
    DecidesNoFailure(attempts);
    hide TipOutcome, TipTransaction, AnswerOf, ReadAnswer, FindReplay, KeyUnused, AnswersFrom, FirstOther, Deciding;
  }

  lemma {:induction false} DecidesNoFailure(attempts: seq<Attempt>)
    ensures Deciding(attempts) != Some(SerializationFailure)
  {
    if attempts != [] { DecidesNoFailure(attempts[1..]); }
  }

  lemma CheckInEffect(r: Rows, u: UserId, date: DateKey, reward: nat, alive: bool)
    ensures GivesReward(r, CheckInUser(r, u, date, reward, alive), u, date, reward, alive)
  {
  }
}
