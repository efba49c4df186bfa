/**
 Any number of tips, check-ins and new members at once. A tip is prepared by reads that can be stale when its
 transaction runs; an attempt can be rolled back, and a commit can be lost on the way to the caller, who may retry.
 */
module EconomyProtocol {
  import opened Options
  import opened EconomyRows
  import opened EconomyLedger

  type ProcessId = nat

  datatype Process = Idle | Tipping(q: Tip, failures: nat)

  /** `results` are the successful answers ever given to callers. */
  datatype World = World(rows: Rows, processes: map<ProcessId, Process>, results: set<(Tip, Response)>)

  datatype Action =
    | AddUser(u: UserId)
    | AddContent(t: Target, owner: UserId)
    | ClaimReward(u: UserId, date: DateKey, reward: nat, alive: bool)
    | Prepare(p: ProcessId, q: Tip)
    | Commit(p: ProcessId, alive: bool, permitted: bool)
    | CommitUnheard(p: ProcessId, alive: bool, permitted: bool)
    | FailSerialization(p: ProcessId)
    | FailUnique(p: ProcessId)

  const EmptyWorld := World(Rows(map[PlatformWallet := Wallet(0, 0, 0)], map[], [], map[], map[]), map[], {})

  function At(w: World, p: ProcessId): Process {
    if p in w.processes then w.processes[p] else Idle
  }

  function Become(w: World, p: ProcessId, s: Process): World {
    w.(processes := w.processes[p := s])
  }

  function WithRows(w: World, r: Rows): World { w.(rows := r) }

  function Answer(w: World, q: Tip, a: Result<Response, Error>): World {
    match a
    case Ok(response) => w.(results := w.results + {(q, response)})
    case Err(_) => w
  }

  /** `prepareTip` and the check of `tip` before its first attempt. */
  function StepPrepare(w: World, p: ProcessId, q: Tip): World {
    if !(2 <= q.amount <= MAX_BIGINT) || UserWallet(q.sender) !in w.rows.wallets then w
    else
      match ReadAnswer(w.rows.ledger, q)
      case Some(a) => Answer(w, q, a)
      case None => if q.sender == q.recipient then w else Become(w, p, Tipping(q, 0))
  }

  function StepCommit(w: World, p: ProcessId, q: Tip, alive: bool, permitted: bool): World
    requires q.sender != q.recipient
  {
    Become(Answer(WithRows(w, TipTransaction(w.rows, q, alive, permitted)), q, AnswerOf(w.rows, q, alive, permitted)), p, Idle)
  }

  function Step(w: World, act: Action): World {
    match act
    case AddUser(u) =>
      if UserWallet(u) in w.rows.wallets then w
      else WithRows(w, w.rows.(wallets := w.rows.wallets[UserWallet(u) := Wallet(0, 0, 0)]))
    case AddContent(t, owner) =>
      if t in w.rows.contents || t.UserTarget? then w
      else WithRows(w, w.rows.(contents := w.rows.contents[t := Content(owner, 0)]))
    case ClaimReward(u, date, reward, alive) =>
      if 1 <= reward <= 3 then WithRows(w, CheckInUser(w.rows, u, date, reward, alive)) else w
    case Prepare(p, q) => StepPrepare(w, p, q)
    case Commit(p, alive, permitted) =>
      (match At(w, p)
       case Tipping(q, _) => if q.sender != q.recipient then StepCommit(w, p, q, alive, permitted) else w
       case _ => w)
    case CommitUnheard(p, alive, permitted) =>
      (match At(w, p)
       case Tipping(q, _) =>
         if q.sender != q.recipient then Become(WithRows(w, TipTransaction(w.rows, q, alive, permitted)), p, Idle) else w
       case _ => w)
    case FailSerialization(p) =>
      (match At(w, p)
       case Tipping(q, failures) => Become(w, p, if failures + 1 < MAX_ATTEMPTS then Tipping(q, failures + 1) else Idle)
       case _ => w)
    case FailUnique(p) =>
      (match At(w, p)
       case Tipping(q, _) =>
         var a := ReadAnswer(w.rows.ledger, q);
         Become(if a.Some? then Answer(w, q, a.value) else w, p, Idle)
       case _ => w)
  }

  function Run(w: World, trace: seq<Action>): World {
    if trace == [] then w else Step(Run(w, trace[..|trace| - 1]), trace[|trace| - 1])
  }

  function Reached(trace: seq<Action>): World { Run(EmptyWorld, trace) }

  // ----- What every step keeps

  /** The entry a successful answer was made from. */
  ghost predicate AnsweredBy(ledger: seq<Entry>, q: Tip, a: Response, i: nat) {
    i < |ledger| && ledger[i].TipEntry? && ledger[i].sender == UserWallet(q.sender) && ledger[i].request == q.request &&
    ledger[i].hash == Hash(q) && a == TipResponse(ledger, i)
  }

  ghost predicate Inv(w: World) {
    RowsOk(w.rows) &&
    (forall p | p in w.processes && w.processes[p].Tipping? ::
       w.processes[p].q.amount >= 2 && w.processes[p].q.sender != w.processes[p].q.recipient &&
       w.processes[p].failures < MAX_ATTEMPTS) &&
    forall x | x in w.results :: exists i :: AnsweredBy(w.rows.ledger, x.0, x.1, i)
  }

  /** The ledger only grows. */
  lemma LedgerGrows(w: World, act: Action)
    ensures w.rows.ledger <= Step(w, act).rows.ledger
  {
    hide TipVerdict, TipEntryFor, Moved, Tipped, ReadAnswer, AnswerOf, CheckInEntryFor;
  }

  lemma AnswersStay(l: seq<Entry>, l': seq<Entry>, q: Tip, a: Response, i: nat)
    requires AnsweredBy(l, q, a, i) && l <= l'
    ensures AnsweredBy(l', q, a, i)
  {
    assert l'[i] == l[i];
  }

  lemma ReadAnswerIsStored(l: seq<Entry>, q: Tip)
    requires ReadAnswer(l, q).Some? && ReadAnswer(l, q).value.Ok?
    ensures exists i :: AnsweredBy(l, q, ReadAnswer(l, q).value.value, i)
  {
    assert AnsweredBy(l, q, ReadAnswer(l, q).value.value, FindReplay(l, q).entry);
  }

  lemma CommitAnswerIsStored(r: Rows, q: Tip, alive: bool, permitted: bool)
    requires q.sender != q.recipient && AnswerOf(r, q, alive, permitted).Ok?
    ensures exists i :: AnsweredBy(TipTransaction(r, q, alive, permitted).ledger, q, AnswerOf(r, q, alive, permitted).value, i)
  {
    hide Moved, Tipped, TotalAfter, SplitTip, WithinLimits, TargetOk;
    var l := TipTransaction(r, q, alive, permitted).ledger;
    match TipVerdict(r, q, alive, permitted)
    case Replayed(i) => assert AnsweredBy(l, q, AnswerOf(r, q, alive, permitted).value, i);
    case Paid => assert AnsweredBy(l, q, AnswerOf(r, q, alive, permitted).value, |r.ledger|);
    case _ =>
  }

  lemma ResultsStepKeep(w: World, act: Action)
    requires Inv(w)
    ensures forall x | x in Step(w, act).results :: exists i :: AnsweredBy(Step(w, act).rows.ledger, x.0, x.1, i)
  {
    hide RowsOk, TipTransaction, CheckInUser, ReadAnswer, AnswerOf, AnsweredBy;
    LedgerGrows(w, act);
    var w' := Step(w, act);
    forall x | x in w'.results
      ensures exists i :: AnsweredBy(w'.rows.ledger, x.0, x.1, i)
    {
      if x in w.results {
        var i: nat :| AnsweredBy(w.rows.ledger, x.0, x.1, i);
        AnswersStay(w.rows.ledger, w'.rows.ledger, x.0, x.1, i);
      } else {
        match act
        case Prepare(p, q) => ReadAnswerIsStored(w.rows.ledger, q);
        case Commit(p, alive, permitted) => CommitAnswerIsStored(w.rows, At(w, p).q, alive, permitted);
        case FailUnique(p) => ReadAnswerIsStored(w.rows.ledger, At(w, p).q);
        case _ => assert false;
      }
    }
  }

  lemma StepKeeps(w: World, act: Action)
    requires Inv(w)
    ensures Inv(Step(w, act))
  {
    hide RowsOk, TipTransaction, CheckInUser, ReadAnswer, AnswerOf, AnsweredBy;
    ResultsStepKeep(w, act);
    match act
    case AddUser(u) => if UserWallet(u) !in w.rows.wallets { NewWalletKeeps(w.rows, u); }
    case AddContent(t, owner) => if t !in w.rows.contents && !t.UserTarget? { NewContentKeeps(w.rows, t, owner); }
    case ClaimReward(u, date, reward, alive) => if 1 <= reward <= 3 { CheckInKeeps(w.rows, u, date, reward, alive); }
    case Commit(p, alive, permitted) => if At(w, p).Tipping? { TipKeeps(w.rows, At(w, p).q, alive, permitted); }
    case CommitUnheard(p, alive, permitted) => if At(w, p).Tipping? { TipKeeps(w.rows, At(w, p).q, alive, permitted); }
    case _ =>
  }

  lemma {:induction false} RunKeeps(w: World, trace: seq<Action>)
    requires Inv(w)
    ensures Inv(Run(w, trace)) && w.rows.ledger <= Run(w, trace).rows.ledger
  {
    hide Inv, Step;
    if trace != [] {
      RunKeeps(w, trace[..|trace| - 1]);
      StepKeeps(Run(w, trace[..|trace| - 1]), trace[|trace| - 1]);
      LedgerGrows(Run(w, trace[..|trace| - 1]), trace[|trace| - 1]);
    }
  }

  lemma EveryRunKeeps(trace: seq<Action>)
    ensures Inv(Reached(trace))
  {
    var ws := EmptyWorld.rows.wallets;
    TotalUpdate(map[], PlatformWallet, Wallet(0, 0, 0));
    assert ws == (map[])[PlatformWallet := Wallet(0, 0, 0)];
    RunKeeps(EmptyWorld, trace);
  }

  // ----- The theorems

  /**
   In every run, the cached balances and totals of every wallet and content are exactly those of the ledger, every
   stored amount is the fold up to its entry, and no balance is negative or out of range.
   */
  lemma CachesRefineLedger(trace: seq<Action>)
    ensures var r := Reached(trace).rows;
            (forall w | w in r.wallets ::
               0 <= Balance(r.ledger, w) == r.wallets[w].balance <= MAX_BIGINT && r.wallets[w].tipTotal == TipTotal(r.ledger, w) &&
               r.wallets[w].tipCount == TipCount(r.ledger, w)) &&
            (forall t | t in r.contents :: r.contents[t].tipTotal == ContentTotal(r.ledger, t)) &&
            (forall i | 0 <= i < |r.ledger| :: SnapshotOk(r.ledger, i))
  {
    EveryRunKeeps(trace);
    var r := Reached(trace).rows;
    hide Reached, SnapshotOk, Balance, TipTotal, TipCount, ContentTotal;
    forall w | w in r.wallets
      ensures WalletOk(r, w)
    {
    }
  }

  /** Check-in rewards are the only source of value: all balances together are the sum of the rewards. */
  lemma RewardsAreTheOnlySource(trace: seq<Action>)
    ensures Total(Reached(trace).rows.wallets) == Rewards(Reached(trace).rows.ledger)
  {
    EveryRunKeeps(trace);
  }

  /** The total grows by the reward of a check-in, between one and three, and by nothing else. */
  lemma TotalGrowsByRewards(trace: seq<Action>, act: Action)
    ensures var before, after := Total(Reached(trace).rows.wallets), Total(Step(Reached(trace), act).rows.wallets);
            if act.ClaimReward? then after == before || after == before + act.reward <= before + 3 else after == before
  {
    var w := Reached(trace);
    EveryRunKeeps(trace);
    StepKeeps(w, act);
    hide Inv, Reached, Total, TipVerdict, Moved, Tipped, ReadAnswer, AnswerOf;
    InvTotals(w);
    InvTotals(Step(w, act));
    RewardsStep(w, act);
  }

  lemma InvTotals(w: World)
    requires Inv(w)
    ensures Total(w.rows.wallets) == Rewards(w.rows.ledger)
  {
  }

  lemma RewardsStep(w: World, act: Action)
    ensures var before, after := Rewards(w.rows.ledger), Rewards(Step(w, act).rows.ledger);
            if act.ClaimReward? then after == before || after == before + act.reward <= before + 3 else after == before
  {
    hide TipVerdict, Moved, Tipped, ReadAnswer, AnswerOf, Rewards;
    var l, l' := w.rows.ledger, Step(w, act).rows.ledger;
    LedgerStep(w, act);
    if l' != l {
      FoldsAppend(l, l'[|l|]);
    }
  }

  lemma LedgerStep(w: World, act: Action)
    ensures var l, l' := w.rows.ledger, Step(w, act).rows.ledger;
            l' == l ||
            (|l'| == |l| + 1 && l' == l + [l'[|l|]] &&
             if act.ClaimReward? then l'[|l|].CheckInEntry? && l'[|l|].gross == act.reward <= 3 else l'[|l|].TipEntry?)
  {
    hide TipVerdict, Moved, Tipped, ReadAnswer, AnswerOf, SplitTip, TotalAfter;
  }

  /** A member has at most one check-in entry for a day. */
  lemma OneRewardPerDay(trace: seq<Action>, i: nat, j: nat)
    requires var l := Reached(trace).rows.ledger;
             i < |l| && j < |l| && l[i].CheckInEntry? && l[j].CheckInEntry? && l[i].recipient == l[j].recipient && l[i].date == l[j].date
    ensures i == j
  {
    EveryRunKeeps(trace);
    var r := Reached(trace).rows;
    hide Reached, SnapshotOk, KeysOk, CachesOk, OutboxOk;
    assert EntryOk(r.ledger[i], r.wallets.Keys, r.contents.Keys);
  }

  /**
   However often a tip is retried, raced or answered late: its key has at most one entry and exactly one outbox event
   for it, and all successful answers for the key, whoever asked, are the same and carry the same payload.
   */
  lemma OneTipPerKey(trace: seq<Action>, q1: Tip, a1: Response, q2: Tip, a2: Response)
    requires (q1, a1) in Reached(trace).results && (q2, a2) in Reached(trace).results
    requires q1.sender == q2.sender && q1.request == q2.request
    ensures a1 == a2 && q1.target == q2.target && q1.amount == q2.amount
    ensures var r := Reached(trace).rows;
            a1.transaction < |r.ledger| && AnsweredBy(r.ledger, q1, a1, a1.transaction) && a1.transaction in r.outbox &&
            forall i | 0 <= i < |r.ledger| && SameKey(r.ledger[i], r.ledger[a1.transaction]) :: i == a1.transaction
  {
    EveryRunKeeps(trace);
    var w := Reached(trace);
    hide Reached, EntriesOk, CachesOk, CheckInsOk;
    var i: nat :| AnsweredBy(w.rows.ledger, q1, a1, i);
    var j: nat :| AnsweredBy(w.rows.ledger, q2, a2, j);
    assert SameKey(w.rows.ledger[i], w.rows.ledger[j]) && SameKey(w.rows.ledger[j], w.rows.ledger[i]);
  }

  /** The search for a key finds the one entry that has it. */
  lemma FindsTheEntry(r: Rows, sender: UserId, request: RequestId, i: nat)
    requires RowsOk(r) && i < |r.ledger| && r.ledger[i].TipEntry? && r.ledger[i].sender == UserWallet(sender) &&
             r.ledger[i].request == request
    ensures FindTip(r.ledger, UserWallet(sender), request) == Some(i)
  {
    hide EntriesOk, CachesOk, CheckInsOk, OutboxOk, FindTip;
    var found := FindTip(r.ledger, UserWallet(sender), request);
    assert r.ledger[i] in r.ledger;
    assert SameKey(r.ledger[i], r.ledger[found.value]) && SameKey(r.ledger[found.value], r.ledger[i]);
  }

  lemma RowsOfRun(trace: seq<Action>)
    ensures RowsOk(Reached(trace).rows)
  {
    hide RowsOk;
    EveryRunKeeps(trace);
  }

  /** A key that was used for another target or amount fails, and nothing changes. */
  lemma ReusedKeyHasNoEffect(trace: seq<Action>, q: Tip, i: nat, alive: bool, permitted: bool)
    requires var l := Reached(trace).rows.ledger;
             i < |l| && l[i].TipEntry? && l[i].sender == UserWallet(q.sender) && l[i].request == q.request && l[i].hash != Hash(q)
    requires q.sender != q.recipient
    ensures var r := Reached(trace).rows;
            TipTransaction(r, q, alive, permitted) == r && AnswerOf(r, q, alive, permitted).Err? &&
            ReadAnswer(r.ledger, q) == Some(Err(KeyReused))
  {
    hide RowsOk, Reached, FindTip, WithinLimits, TargetOk;
    RowsOfRun(trace);
    FindsTheEntry(Reached(trace).rows, q.sender, q.request, i);
  }

  /** A retry of a paid tip changes nothing and gets the first answer, whatever else happened in between. */
  lemma RetryGetsTheFirstAnswer(before: seq<Action>, after: seq<Action>, q: Tip, a: Response, alive: bool, permitted: bool)
    requires (q, a) in Reached(before).results && q.sender != q.recipient
    ensures var r := Run(Reached(before), after).rows;
            ReadAnswer(r.ledger, q) == Some(Ok(a)) && TipTransaction(r, q, alive, permitted) == r &&
            (AnswerOf(r, q, alive, permitted).Ok? ==> AnswerOf(r, q, alive, permitted) == Ok(a))
  {
    hide RowsOk, Reached, Run, FindTip, WithinLimits, TargetOk, TipResponse;
    EveryRunKeeps(before);
    RunKeeps(Reached(before), after);
    var r := Run(Reached(before), after).rows;
    var i: nat :| AnsweredBy(Reached(before).rows.ledger, q, a, i);
    AnswersStay(Reached(before).rows.ledger, r.ledger, q, a, i);
    FindsTheEntry(r, q.sender, q.request, i);
  }
}
