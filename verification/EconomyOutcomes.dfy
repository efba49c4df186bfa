/** What each step of a tip and a check-in comes to in every reached state. */
module EconomyOutcomes {
  import opened Options
  import opened EconomyRows
  import opened EconomyEffects
  import opened EconomyLedger
  import opened EconomyProtocol

  /**
   A committed attempt pays exactly when the tip is payable, moves exactly that, and hands its caller the amounts it
   moved. In a reached state the new entry has its own outbox event.
   */
  lemma TipPaysIff(trace: seq<Action>, p: ProcessId, alive: bool, permitted: bool)
    requires At(Reached(trace), p).Tipping?
    ensures var w := Reached(trace);
            var q, w' := At(w, p).q, Step(w, Commit(p, alive, permitted));
            q.sender != q.recipient && 2 <= q.amount &&
            Pays(w.rows, w'.rows, q, alive, permitted) &&
            (|w'.rows.ledger| == |w.rows.ledger| + 1 <==> Payable(w.rows, q, alive, permitted)) &&
            (Payable(w.rows, q, alive, permitted) ==>
               |w.rows.ledger| !in w.rows.outbox &&
               (q, Response(|w.rows.ledger|, q.amount, q.amount * 85 / 100, q.amount - q.amount * 85 / 100,
                            w.rows.wallets[UserWallet(q.sender)].balance - q.amount, NewTotal(w.rows, q),
                            w.rows.wallets[UserWallet(q.recipient)].tipTotal + q.amount,
                            w.rows.wallets[UserWallet(q.recipient)].tipCount + 1)) in w'.results)
  {
    hide *;
    EveryRunKeeps(trace);
    PreparedTip(Reached(trace), p);
    TipPays(Reached(trace), p, alive, permitted);
  }

  lemma TipPays(w: World, p: ProcessId, alive: bool, permitted: bool)
    requires At(w, p).Tipping? && At(w, p).q.sender != At(w, p).q.recipient
    ensures var q, w' := At(w, p).q, Step(w, Commit(p, alive, permitted));
            Pays(w.rows, w'.rows, q, alive, permitted) &&
            (|w'.rows.ledger| == |w.rows.ledger| + 1 <==> Payable(w.rows, q, alive, permitted)) &&
            (Payable(w.rows, q, alive, permitted) ==>
               (q, Response(|w.rows.ledger|, q.amount, q.amount * 85 / 100, q.amount - q.amount * 85 / 100,
                            w.rows.wallets[UserWallet(q.sender)].balance - q.amount, NewTotal(w.rows, q),
                            w.rows.wallets[UserWallet(q.recipient)].tipTotal + q.amount,
                            w.rows.wallets[UserWallet(q.recipient)].tipCount + 1)) in w'.results)
  {
    hide *;
    var q := At(w, p).q;
    PaysEffect(w.rows, q, alive, permitted);
    AnswerEffect(w.rows, q, alive, permitted);
    CommitStep(w, p, alive, permitted);
    if Payable(w.rows, q, alive, permitted) { PayableAnswer(w.rows, q, alive, permitted, AnswerOf(w.rows, q, alive, permitted)); }
  }

  lemma PreparedTip(w: World, p: ProcessId)
    requires Inv(w) && At(w, p).Tipping?
    ensures At(w, p).q.sender != At(w, p).q.recipient && At(w, p).q.amount >= 2 && |w.rows.ledger| !in w.rows.outbox
  {
    hide EntriesOk, KeysOk, CachesOk, CheckInsOk, Total, Rewards;
  }

  lemma CommitStep(w: World, p: ProcessId, alive: bool, permitted: bool)
    requires At(w, p).Tipping? && At(w, p).q.sender != At(w, p).q.recipient
    ensures var q, w' := At(w, p).q, Step(w, Commit(p, alive, permitted));
            w'.rows == TipTransaction(w.rows, q, alive, permitted) &&
            (AnswerOf(w.rows, q, alive, permitted).Ok? ==> (q, AnswerOf(w.rows, q, alive, permitted).value) in w'.results)
    ensures Step(w, CommitUnheard(p, alive, permitted)).rows == TipTransaction(w.rows, At(w, p).q, alive, permitted)
  {
    hide TipTransaction, AnswerOf;
  }

  lemma PayableAnswer(r: Rows, q: Tip, alive: bool, permitted: bool, a: Result<Response, Error>)
    requires TipAnswer(r, q, alive, permitted, a) && Payable(r, q, alive, permitted)
    ensures a == Ok(Response(|r.ledger|, q.amount, q.amount * 85 / 100, q.amount - q.amount * 85 / 100,
                             r.wallets[UserWallet(q.sender)].balance - q.amount, NewTotal(r, q),
                             r.wallets[UserWallet(q.recipient)].tipTotal + q.amount, r.wallets[UserWallet(q.recipient)].tipCount + 1))
  {
    hide KeyUnused, TargetIsTheirs, FitsColumns, AnswersFrom;
  }

  /** A commit whose answer is lost has moved the same. */
  lemma UnheardTipPays(w: World, p: ProcessId, alive: bool, permitted: bool)
    requires At(w, p).Tipping? && At(w, p).q.sender != At(w, p).q.recipient
    ensures Pays(w.rows, Step(w, CommitUnheard(p, alive, permitted)).rows, At(w, p).q, alive, permitted)
  {
    TipEffect(w.rows, At(w, p).q, alive, permitted);
    CommitStep(w, p, alive, permitted);
    hide Step, Pays, Payable, TipAnswer, TipTransaction, AnswerOf;
  }

  /**
   A tip is prepared for amounts from two up to the column's limit by a member with a wallet. An unused key lets the
   attempts begin, unless the member tips themselves; a used one is answered from the ledger at once.
   */
  lemma PreparationSteps(w: World, p: ProcessId, q: Tip)
    ensures var w' := Step(w, Prepare(p, q));
            w'.rows == w.rows &&
            if q.amount < 2 || BIGINT < q.amount || UserWallet(q.sender) !in w.rows.wallets then w' == w
            else if KeyUnused(w.rows.ledger, q) then
              w'.results == w.results && if q.sender == q.recipient then w' == w else At(w', p) == Tipping(q, 0)
            else
              exists a :: AnswersFrom(w.rows.ledger, q, a) && w'.results == w.results + (if a.Ok? then {(q, a.value)} else {})
  {
    ReplayEffect(w.rows.ledger, q);
    var a := ReadAnswer(w.rows.ledger, q);
    hide FindReplay, ReadAnswer, KeyUnused, AnswersFrom;
    if a.Some? && AnswersFrom(w.rows.ledger, q, a.value) && a.value.Err? { assert w.results + {} == w.results; }
  }

  /** At most three attempts, of which a failed one leaves the rows alone. */
  lemma FailedAttempts(w: World, p: ProcessId)
    requires At(w, p).Tipping?
    ensures var s, w' := At(w, p), Step(w, FailSerialization(p));
            w'.rows == w.rows && w'.results == w.results && At(w', p) == if s.failures < 2 then Tipping(s.q, s.failures + 1) else Idle
    ensures var q, w' := At(w, p).q, Step(w, FailUnique(p));
            w'.rows == w.rows && At(w', p) == Idle &&
            if KeyUnused(w.rows.ledger, q) then w'.results == w.results
            else exists a :: AnswersFrom(w.rows.ledger, q, a) && w'.results == w.results + (if a.Ok? then {(q, a.value)} else {})
  {
    var q := At(w, p).q;
    ReplayEffect(w.rows.ledger, q);
    var a := ReadAnswer(w.rows.ledger, q);
    hide FindReplay, ReadAnswer, KeyUnused, AnswersFrom;
    if a.Some? && AnswersFrom(w.rows.ledger, q, a.value) && a.value.Err? { assert w.results + {} == w.results; }
  }

  /** A reward between one and three, once a day. */
  lemma RewardStep(w: World, u: UserId, date: DateKey, reward: nat, alive: bool)
    ensures var r' := Step(w, ClaimReward(u, date, reward, alive)).rows;
            if 1 <= reward <= 3 then GivesReward(w.rows, r', u, date, reward, alive) else r' == w.rows
  {
    CheckInEffect(w.rows, u, date, reward, alive);
    hide CheckInUser, GivesReward;
  }
}
