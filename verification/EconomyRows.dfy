/** Wallets, the append-only ledger, content totals, check-ins and the outbox, and the transactions that change them. */
module EconomyRows {
  import opened Options

  type UserId = nat
  type RequestId = nat
  type DateKey = nat
  type ContentId = nat

  const MAX_BIGINT: nat := 9_223_372_036_854_775_807
  const MAX_INT32: nat := 2_147_483_647
  const MAX_ATTEMPTS: nat := 3

  /** A user has one wallet, and the platform has one. */
  datatype WalletId = UserWallet(user: UserId) | PlatformWallet

  datatype Wallet = Wallet(balance: nat, tipTotal: nat, tipCount: nat)

  datatype Target = ThreadTarget(thread: ContentId) | MomentTarget(moment: ContentId) | UserTarget(user: UserId)

  datatype Content = Content(owner: UserId, tipTotal: nat)

  datatype Entry =
    | CheckInEntry(recipient: WalletId, gross: nat, recipientBalanceAfter: nat, tipTotalAfter: nat, tipCountAfter: nat,
                   date: DateKey)
    | TipEntry(sender: WalletId, recipient: WalletId, target: Target, gross: nat, recipientAmount: nat, platformAmount: nat,
               senderBalanceAfter: nat, recipientBalanceAfter: nat, platformBalanceAfter: nat, contentTotalAfter: Option<nat>,
               tipTotalAfter: nat, tipCountAfter: nat, request: RequestId, hash: (Target, nat))

  datatype CheckIn = CheckIn(entry: nat, reward: nat)

  datatype Event = TipCompleted(entry: nat, recipient: UserId, target: Target, gross: nat, contentTotal: Option<nat>)

  /** The ledger is in commit order; the position of an entry stands for its id. */
  datatype Rows = Rows(
    wallets: map<WalletId, Wallet>, contents: map<Target, Content>, ledger: seq<Entry>,
    checkIns: map<(UserId, DateKey), CheckIn>, outbox: map<nat, Event>)

  function SplitTip(gross: nat): (r: (nat, nat)) {
    (gross * 85 / 100, gross - gross * 85 / 100)
  }

  /** The two shares add up to the tip, and from the smallest tip on nobody gets nothing. */
  lemma SplitIsExact(gross: nat)
    requires gross >= 2
    ensures var (recipient, platform) := SplitTip(gross);
            recipient + platform == gross && recipient >= 1 && platform >= 1 &&
            100 * recipient <= 85 * gross < 100 * recipient + 100
  {
  }

  // ----- checkIn

  datatype Error = InvalidAmount | UserNotFound | Deactivated | KeyReused | NotAllowed | TargetNotFound | Insufficient | Overflow |
                   UniqueViolation | Conflict

  function CheckInEntryFor(r: Rows, u: UserId, date: DateKey, reward: nat): Entry
    requires UserWallet(u) in r.wallets
  {
    var x := r.wallets[UserWallet(u)];
    CheckInEntry(UserWallet(u), reward, x.balance + reward, x.tipTotal, x.tipCount, date)
  }

  predicate CanCheckIn(r: Rows, u: UserId, date: DateKey, reward: nat, alive: bool) {
    alive && UserWallet(u) in r.wallets && (u, date) !in r.checkIns && r.wallets[UserWallet(u)].balance + reward <= MAX_BIGINT
  }

  /** `alive` says that the user exists and is not deactivated; `reward` is the random draw. */
  function CheckInUser(r: Rows, u: UserId, date: DateKey, reward: nat, alive: bool): Rows {
    if CanCheckIn(r, u, date, reward, alive) then
      var x := r.wallets[UserWallet(u)];
      r.(wallets := r.wallets[UserWallet(u) := x.(balance := x.balance + reward)],
         ledger := r.ledger + [CheckInEntryFor(r, u, date, reward)],
         checkIns := r.checkIns[(u, date) := CheckIn(|r.ledger|, reward)])
    else r
  }

  // ----- tip

  /** A prepared tip; the hash of its payload is the pair of target and amount. */
  datatype Tip = Tip(sender: UserId, target: Target, recipient: UserId, amount: nat, request: RequestId)

  function Hash(q: Tip): (Target, nat) { (q.target, q.amount) }

  /** The entry with this idempotency key. */
  function FindTip(ledger: seq<Entry>, sender: WalletId, request: RequestId): (r: Option<nat>)
    ensures r.Some? ==> r.value < |ledger| && ledger[r.value].TipEntry? && ledger[r.value].sender == sender &&
                        ledger[r.value].request == request
    ensures r.None? ==> forall e | e in ledger && e.TipEntry? :: e.sender != sender || e.request != request
  {
    if ledger == [] then None
    else
      var last := ledger[|ledger| - 1];
      if last.TipEntry? && last.sender == sender && last.request == request then Some(|ledger| - 1)
      else FindTip(ledger[..|ledger| - 1], sender, request)
  }

  datatype Reading = Fresh | Replay(entry: nat) | Reused

  function FindReplay(ledger: seq<Entry>, q: Tip): (r: Reading)
    ensures r.Replay? ==> r.entry < |ledger| && ledger[r.entry].TipEntry?
  {
    match FindTip(ledger, UserWallet(q.sender), q.request)
    case None => Fresh
    case Some(i) => if ledger[i].hash == Hash(q) then Replay(i) else Reused
  }

  predicate TargetOk(r: Rows, q: Tip) {
    match q.target
    case UserTarget(u) => u == q.recipient
    case _ => q.target in r.contents && r.contents[q.target].owner == q.recipient
  }

  predicate WithinLimits(r: Rows, q: Tip)
    requires UserWallet(q.recipient) in r.wallets && PlatformWallet in r.wallets
  {
    var (toRecipient, toPlatform) := SplitTip(q.amount);
    var x := r.wallets[UserWallet(q.recipient)];
    x.balance + toRecipient <= MAX_BIGINT && x.tipTotal + q.amount <= MAX_BIGINT && x.tipCount + 1 <= MAX_INT32 &&
    r.wallets[PlatformWallet].balance + toPlatform <= MAX_BIGINT &&
    (q.target in r.contents ==> r.contents[q.target].tipTotal + q.amount <= MAX_BIGINT)
  }

  datatype Verdict = Rejected(error: Error) | Replayed(entry: nat) | Paid

  /**
   The checks of the transaction in order. `alive`: neither member is deactivated; `permitted`: no block between
   them, and the thread is visible to the sender.
   */
  function TipVerdict(r: Rows, q: Tip, alive: bool, permitted: bool): Verdict {
    if UserWallet(q.sender) !in r.wallets || UserWallet(q.recipient) !in r.wallets || PlatformWallet !in r.wallets then
      Rejected(UserNotFound)
    else if !alive then Rejected(Deactivated)
    else
      match FindReplay(r.ledger, q)
      case Replay(i) => Replayed(i)
      case Reused => Rejected(KeyReused)
      case Fresh =>
        if !permitted then Rejected(NotAllowed)
        else if !TargetOk(r, q) then Rejected(TargetNotFound)
        else if r.wallets[UserWallet(q.sender)].balance < q.amount then Rejected(Insufficient)
        else if !WithinLimits(r, q) then Rejected(Overflow)
        else Paid
  }

  /** The wallets after the three updates. */
  function Moved(r: Rows, q: Tip): map<WalletId, Wallet>
    requires UserWallet(q.sender) in r.wallets && UserWallet(q.recipient) in r.wallets && PlatformWallet in r.wallets
    requires q.sender != q.recipient && r.wallets[UserWallet(q.sender)].balance >= q.amount
  {
    var (toRecipient, toPlatform) := SplitTip(q.amount);
    var from, to, fee := r.wallets[UserWallet(q.sender)], r.wallets[UserWallet(q.recipient)], r.wallets[PlatformWallet];
    r.wallets[UserWallet(q.sender) := from.(balance := from.balance - q.amount)]
             [UserWallet(q.recipient) := Wallet(to.balance + toRecipient, to.tipTotal + q.amount, to.tipCount + 1)]
             [PlatformWallet := fee.(balance := fee.balance + toPlatform)]
  }

  function Tipped(r: Rows, q: Tip): map<Target, Content> {
    if q.target in r.contents && !q.target.UserTarget? then
      r.contents[q.target := r.contents[q.target].(tipTotal := r.contents[q.target].tipTotal + q.amount)]
    else r.contents
  }

  function TotalAfter(contents: map<Target, Content>, q: Tip): Option<nat> {
    if q.target in contents && !q.target.UserTarget? then Some(contents[q.target].tipTotal) else None
  }

  function TipEntryFor(r: Rows, q: Tip): Entry
    requires UserWallet(q.sender) in r.wallets && UserWallet(q.recipient) in r.wallets && PlatformWallet in r.wallets
    requires q.sender != q.recipient && r.wallets[UserWallet(q.sender)].balance >= q.amount
  {
    var (toRecipient, toPlatform) := SplitTip(q.amount);
    var after := Moved(r, q);
    var to := after[UserWallet(q.recipient)];
    TipEntry(UserWallet(q.sender), UserWallet(q.recipient), q.target, q.amount, toRecipient, toPlatform,
             after[UserWallet(q.sender)].balance, to.balance, after[PlatformWallet].balance,
             TotalAfter(Tipped(r, q), q), to.tipTotal, to.tipCount, q.request, Hash(q))
  }

  function TipTransaction(r: Rows, q: Tip, alive: bool, permitted: bool): Rows
    requires q.sender != q.recipient
  {
    if TipVerdict(r, q, alive, permitted).Paid? then
      var e := TipEntryFor(r, q);
      var id := |r.ledger|;
      r.(wallets := Moved(r, q), contents := Tipped(r, q), ledger := r.ledger + [e],
         outbox := if id in r.outbox then r.outbox
                   else r.outbox[id := TipCompleted(id, q.recipient, q.target, q.amount, e.contentTotalAfter)])
    else r
  }

  /** What the caller is told, made from the stored entry alone. */
  datatype Response = Response(
    transaction: nat, gross: nat, recipientAmount: nat, platformAmount: nat, balance: nat, contentTotal: Option<nat>,
    tipTotal: nat, tipCount: nat)

  function TipResponse(ledger: seq<Entry>, i: nat): Response
    requires i < |ledger| && ledger[i].TipEntry?
  {
    var e := ledger[i];
    Response(i, e.gross, e.recipientAmount, e.platformAmount, e.senderBalanceAfter, e.contentTotalAfter, e.tipTotalAfter,
             e.tipCountAfter)
  }

  /** The answer of one run of the transaction body. */
  function AnswerOf(r: Rows, q: Tip, alive: bool, permitted: bool): Result<Response, Error>
    requires q.sender != q.recipient
  {
    match TipVerdict(r, q, alive, permitted)
    case Rejected(e) => Err(e)
    case Replayed(i) => Ok(TipResponse(r.ledger, i))
    case Paid => Ok(TipResponse(r.ledger + [TipEntryFor(r, q)], |r.ledger|))
  }

  /** The answer found by reading, before a transaction or after it lost against the unique index. */
  function ReadAnswer(ledger: seq<Entry>, q: Tip): Option<Result<Response, Error>> {
    match FindReplay(ledger, q)
    case Fresh => None
    case Replay(i) => Some(Ok(TipResponse(ledger, i)))
    case Reused => Some(Err(KeyReused))
  }

  /** How the database ends one attempt at a transaction. */
  datatype Attempt = Runs | SerializationFailure | UniqueConflict

  /** The first attempt that is not rolled back as a serialization failure. */
  function Deciding(attempts: seq<Attempt>): Option<Attempt> {
    if attempts == [] then None
    else if attempts[0] != SerializationFailure then Some(attempts[0])
    else Deciding(attempts[1..])
  }
}

/** The rows as the service changes them in place. */
module EconomyStore {
  import opened Options
  import opened R = EconomyRows
  import opened EconomyEffects

  class EconomyDatabase {
    var wallets: map<WalletId, Wallet>
    var contents: map<Target, Content>
    var ledger: seq<Entry>
    var checkIns: map<(UserId, DateKey), CheckIn>
    var outbox: map<nat, Event>

    function View(): Rows
      reads this
    {
      Rows(wallets, contents, ledger, checkIns, outbox)
    }

    constructor ()
      ensures View() == Rows(map[PlatformWallet := Wallet(0, 0, 0)], map[], [], map[], map[])
    {
      wallets, contents, ledger, checkIns, outbox := map[PlatformWallet := Wallet(0, 0, 0)], map[], [], map[], map[];
    }

    /** `claimedNow` only for the first successful call of the day; a later one returns the stored reward. */
    method CheckInUser(u: UserId, date: DateKey, reward: nat, alive: bool) returns (r: Result<(bool, nat, nat), Error>)
      modifies this
      ensures View() == R.CheckInUser(old(View()), u, date, reward, alive)
      ensures GivesReward(old(View()), View(), u, date, reward, alive)
      ensures r.Ok? <==> alive && UserWallet(u) in old(wallets) &&
                         ((u, date) in old(checkIns) || old(wallets)[UserWallet(u)].balance + reward <= MAX_BIGINT)
      ensures r.Ok? ==> UserWallet(u) in wallets && (u, date) in checkIns &&
                        r.value == ((u, date) !in old(checkIns), checkIns[(u, date)].reward, wallets[UserWallet(u)].balance)
    {
      CheckInEffect(View(), u, date, reward, alive);
      if !alive { return Err(Deactivated); }
      if UserWallet(u) !in wallets { return Err(UserNotFound); }
      var wallet := wallets[UserWallet(u)];
      if (u, date) in checkIns { return Ok((false, checkIns[(u, date)].reward, wallet.balance)); }
      if wallet.balance + reward > MAX_BIGINT { return Err(Overflow); }
      var updated := wallet.(balance := wallet.balance + reward);
      wallets := wallets[UserWallet(u) := updated];
      var id := |ledger|;
      ledger := ledger + [CheckInEntry(UserWallet(u), reward, updated.balance, updated.tipTotal, updated.tipCount, date)];
      checkIns := checkIns[(u, date) := CheckIn(id, reward)];
      return Ok((true, reward, updated.balance));
    }

    /** The three balances, and the total of the thread or moment. */
    method Transfer(q: Tip) returns (toRecipient: nat, toPlatform: nat)
      requires UserWallet(q.sender) in wallets && UserWallet(q.recipient) in wallets && PlatformWallet in wallets
      requires q.sender != q.recipient && wallets[UserWallet(q.sender)].balance >= q.amount
      modifies this`wallets, this`contents
      ensures wallets == Moved(old(View()), q) && contents == Tipped(old(View()), q)
      ensures (toRecipient, toPlatform) == SplitTip(q.amount)
    {
      var from, to := UserWallet(q.sender), UserWallet(q.recipient);
      wallets := wallets[from := wallets[from].(balance := wallets[from].balance - q.amount)];
      toRecipient, toPlatform := SplitTip(q.amount).0, SplitTip(q.amount).1;
      wallets := wallets[to := Wallet(wallets[to].balance + toRecipient, wallets[to].tipTotal + q.amount, wallets[to].tipCount + 1)];
      wallets := wallets[PlatformWallet := wallets[PlatformWallet].(balance := wallets[PlatformWallet].balance + toPlatform)];
      assert wallets == Moved(old(View()), q);
      if q.target in contents && !q.target.UserTarget? {
        contents := contents[q.target := contents[q.target].(tipTotal := contents[q.target].tipTotal + q.amount)];
      }
    }

    /** One run of the transaction body. */
    method RunTip(q: Tip, alive: bool, permitted: bool) returns (r: Result<Response, Error>)
      requires q.sender != q.recipient
      modifies this
      ensures View() == TipTransaction(old(View()), q, alive, permitted)
      ensures r == AnswerOf(old(View()), q, alive, permitted)
      ensures TipOutcome(old(View()), View(), q, alive, permitted, r)
    {
      TipEffect(View(), q, alive, permitted);
      hide TipOutcome, FindReplay, FindTip, WithinLimits, TargetOk, SplitTip, Payable, Hash, TipResponse;
      var before := View();
      var from, to := UserWallet(q.sender), UserWallet(q.recipient);
      if from !in wallets || to !in wallets || PlatformWallet !in wallets { return Err(UserNotFound); }
      if !alive { return Err(Deactivated); }
      var replay := FindReplay(ledger, q);
      if replay.Replay? { return Ok(TipResponse(ledger, replay.entry)); }
      if replay.Reused? { return Err(KeyReused); }
      if !permitted { return Err(NotAllowed); }
      if !TargetOk(before, q) { return Err(TargetNotFound); }
      if wallets[from].balance < q.amount { return Err(Insufficient); }
      if !WithinLimits(before, q) { return Err(Overflow); }
      var toRecipient, toPlatform := Transfer(q);
      var id := |ledger|;
      var total := TotalAfter(contents, q);
      ledger := ledger + [TipEntry(from, to, q.target, q.amount, toRecipient, toPlatform, wallets[from].balance, wallets[to].balance,
                                   wallets[PlatformWallet].balance, total, wallets[to].tipTotal, wallets[to].tipCount,
                                   q.request, Hash(q))];
      if id !in outbox {
        outbox := outbox[id := TipCompleted(id, q.recipient, q.target, q.amount, total)];
      }
      return Ok(TipResponse(ledger, id));
    }

    /**
     The tip with its retries: an attempt that the database rolls back as a serialization failure is repeated, at
     most three attempts in all; one rolled back by the unique index looks for the entry of the other caller.
     */
    method PayTip(q: Tip, alive: bool, permitted: bool, attempts: seq<Attempt>) returns (r: Result<Response, Error>)
      requires |attempts| == MAX_ATTEMPTS
      modifies this
      ensures q.sender == q.recipient ==> View() == old(View()) && r == Err(NotAllowed)
      ensures q.sender != q.recipient ==>
                match Deciding(attempts)
                case Some(Runs) =>
                  View() == TipTransaction(old(View()), q, alive, permitted) && r == AnswerOf(old(View()), q, alive, permitted)
                case Some(_) =>
                  View() == old(View()) &&
                  r == (match ReadAnswer(ledger, q) case Some(answer) => answer case None => Err(UniqueViolation))
                case None => View() == old(View()) && r == Err(Conflict)
      ensures q.sender != q.recipient ==> PayOutcome(old(View()), View(), q, alive, permitted, attempts, r)
    {
      if q.sender != q.recipient { PayEffect(View(), q, alive, permitted, attempts); }
      hide PayOutcome;
      hide TipTransaction, AnswerOf, ReadAnswer;
      if q.sender == q.recipient {
        return Err(NotAllowed);
      }
      var attempt := 0;
      assert attempts[0..] == attempts;
      while attempt < MAX_ATTEMPTS
        invariant attempt <= MAX_ATTEMPTS && View() == old(View())
        invariant Deciding(attempts) == Deciding(attempts[attempt..])
      {
        assert attempts[attempt..][0] == attempts[attempt] && attempts[attempt..][1..] == attempts[attempt + 1..];
        if attempts[attempt] == SerializationFailure {
          attempt := attempt + 1;
          continue;
        }
        if attempts[attempt] == UniqueConflict {
          var racedReplay := ReadAnswer(ledger, q);
          if racedReplay.Some? {
            return racedReplay.value;
          }
          return Err(UniqueViolation);
        }
        r := RunTip(q, alive, permitted);
        return;
      }
      return Err(Conflict);
    }
  }
}
