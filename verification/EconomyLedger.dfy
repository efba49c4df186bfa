/** What a ledger says: balances, totals and rewards as folds over its entries, and the state that refines them. */
module EconomyLedger {
  import opened Options
  import opened EconomyRows

  function Share(e: Entry): nat { if e.TipEntry? then e.recipientAmount else e.gross }

  /** What one entry changes in one wallet. */
  function Delta(e: Entry, w: WalletId): int {
    (if e.recipient == w then Share(e) else 0) +
    (if e.TipEntry? && w == PlatformWallet then e.platformAmount else 0) -
    (if e.TipEntry? && e.sender == w then e.gross else 0)
  }

  function Balance(ledger: seq<Entry>, w: WalletId): int {
    if ledger == [] then 0 else Balance(ledger[..|ledger| - 1], w) + Delta(ledger[|ledger| - 1], w)
  }

  function TipPart(e: Entry, w: WalletId): nat { if e.TipEntry? && e.recipient == w then e.gross else 0 }

  function TipTotal(ledger: seq<Entry>, w: WalletId): nat {
    if ledger == [] then 0 else TipTotal(ledger[..|ledger| - 1], w) + TipPart(ledger[|ledger| - 1], w)
  }

  function TipCount(ledger: seq<Entry>, w: WalletId): nat {
    if ledger == [] then 0
    else TipCount(ledger[..|ledger| - 1], w) + if ledger[|ledger| - 1].TipEntry? && ledger[|ledger| - 1].recipient == w then 1 else 0
  }

  function ContentPart(e: Entry, t: Target): nat { if e.TipEntry? && e.target == t then e.gross else 0 }

  function ContentTotal(ledger: seq<Entry>, t: Target): nat {
    if ledger == [] then 0 else ContentTotal(ledger[..|ledger| - 1], t) + ContentPart(ledger[|ledger| - 1], t)
  }

  function Reward(e: Entry): nat { if e.CheckInEntry? then e.gross else 0 }

  function Rewards(ledger: seq<Entry>): nat {
    if ledger == [] then 0 else Rewards(ledger[..|ledger| - 1]) + Reward(ledger[|ledger| - 1])
  }

  lemma FoldsAppend(l: seq<Entry>, e: Entry)
    ensures forall w :: Balance(l + [e], w) == Balance(l, w) + Delta(e, w)
    ensures forall w :: TipTotal(l + [e], w) == TipTotal(l, w) + TipPart(e, w)
    ensures forall w :: TipCount(l + [e], w) == TipCount(l, w) + if e.TipEntry? && e.recipient == w then 1 else 0
    ensures forall t :: ContentTotal(l + [e], t) == ContentTotal(l, t) + ContentPart(e, t)
    ensures Rewards(l + [e]) == Rewards(l) + Reward(e)
  {
    assert (l + [e])[..|l|] == l && (l + [e])[|l|] == e;
  }

  // ----- Entries

  /** The stored amounts after an entry are the folds of the ledger up to and including it. */
  ghost predicate SnapshotOk(ledger: seq<Entry>, i: nat)
    requires i < |ledger|
  {
    var e, upTo := ledger[i], ledger[..i + 1];
    e.recipientBalanceAfter == Balance(upTo, e.recipient) && e.tipTotalAfter == TipTotal(upTo, e.recipient) &&
    e.tipCountAfter == TipCount(upTo, e.recipient) &&
    (e.TipEntry? ==>
       e.senderBalanceAfter == Balance(upTo, e.sender) && e.platformBalanceAfter == Balance(upTo, PlatformWallet) &&
       e.contentTotalAfter == if e.target.UserTarget? then None else Some(ContentTotal(upTo, e.target)))
  }

  /** The shape of an entry, and that its wallets and content exist. */
  ghost predicate EntryOk(e: Entry, wallets: set<WalletId>, contents: set<Target>) {
    e.recipient.UserWallet? && e.recipient in wallets &&
    match e
    case CheckInEntry(_, gross, _, _, _, _) => 1 <= gross <= 3
    case TipEntry(sender, recipient, target, gross, recipientAmount, platformAmount, _, _, _, _, _, _, _, hash) =>
      sender.UserWallet? && sender in wallets && sender != recipient && gross >= 2 &&
      (recipientAmount, platformAmount) == SplitTip(gross) && hash == (target, gross) &&
      (target.UserTarget? || target in contents)
  }

  ghost predicate EntriesOk(r: Rows) {
    forall i | 0 <= i < |r.ledger| :: SnapshotOk(r.ledger, i) && EntryOk(r.ledger[i], r.wallets.Keys, r.contents.Keys)
  }

  ghost predicate SameKey(a: Entry, b: Entry) {
    a.TipEntry? && b.TipEntry? && a.sender == b.sender && a.request == b.request
  }

  ghost predicate KeysOk(ledger: seq<Entry>) {
    forall i, j | 0 <= i < j < |ledger| :: !SameKey(ledger[i], ledger[j])
  }

  // ----- The cached state

  ghost predicate WalletOk(r: Rows, w: WalletId)
    requires w in r.wallets
  {
    var x := r.wallets[w];
    x.balance == Balance(r.ledger, w) && x.tipTotal == TipTotal(r.ledger, w) && x.tipCount == TipCount(r.ledger, w) &&
    x.balance <= MAX_BIGINT && x.tipTotal <= MAX_BIGINT && x.tipCount <= MAX_INT32
  }

  ghost predicate CachesOk(r: Rows) {
    PlatformWallet in r.wallets && (forall w | w in r.wallets :: WalletOk(r, w)) &&
    forall t | t in r.contents :: !t.UserTarget? && r.contents[t].tipTotal == ContentTotal(r.ledger, t)
  }

  ghost predicate OutboxOk(r: Rows) {
    (forall i | i in r.outbox :: i < |r.ledger| && r.ledger[i].TipEntry?) &&
    forall i | 0 <= i < |r.ledger| && r.ledger[i].TipEntry? ::
      r.ledger[i].recipient.UserWallet? && i in r.outbox &&
      r.outbox[i] == TipCompleted(i, r.ledger[i].recipient.user, r.ledger[i].target, r.ledger[i].gross, r.ledger[i].contentTotalAfter)
  }

  ghost predicate CheckInsOk(r: Rows) {
    (forall k | k in r.checkIns ::
       var c := r.checkIns[k];
       c.entry < |r.ledger| && r.ledger[c.entry].CheckInEntry? && r.ledger[c.entry].recipient == UserWallet(k.0) &&
       r.ledger[c.entry].date == k.1 && r.ledger[c.entry].gross == c.reward) &&
    forall i | 0 <= i < |r.ledger| && r.ledger[i].CheckInEntry? && r.ledger[i].recipient.UserWallet? ::
      var k := (r.ledger[i].recipient.user, r.ledger[i].date); k in r.checkIns && r.checkIns[k].entry == i
  }

  ghost predicate RowsOk(r: Rows) {
    EntriesOk(r) && KeysOk(r.ledger) && CachesOk(r) && OutboxOk(r) && CheckInsOk(r) && Total(r.wallets) == Rewards(r.ledger)
  }

  // ----- All wallets together

  ghost function Total(ws: map<WalletId, Wallet>): nat {
    if ws == map[] then 0
    else
      var w :| w in ws;
      ws[w].balance + Total(ws - {w})
  }

  lemma {:induction false} TotalRemove(ws: map<WalletId, Wallet>, w: WalletId)
    requires w in ws
    ensures Total(ws) == ws[w].balance + Total(ws - {w})
    decreases |ws|
  {
    var v :| v in ws && Total(ws) == ws[v].balance + Total(ws - {v});
    if v != w {
      TotalRemove(ws - {v}, w);
      TotalRemove(ws - {w}, v);
      assert ws - {v} - {w} == ws - {w} - {v};
    }
  }

  lemma TotalUpdate(ws: map<WalletId, Wallet>, w: WalletId, x: Wallet)
    ensures Total(ws[w := x]) == Total(ws) + x.balance - if w in ws then ws[w].balance else 0
  {
    TotalRemove(ws[w := x], w);
    assert ws[w := x] - {w} == ws - {w};
    if w in ws {
      TotalRemove(ws, w);
    } else {
      assert ws - {w} == ws;
    }
  }

  // ----- Appending one entry

  lemma SnapshotsStay(l: seq<Entry>, e: Entry, i: nat)
    requires i < |l|
    ensures SnapshotOk(l + [e], i) <==> SnapshotOk(l, i)
  {
    hide Balance, TipTotal, TipCount, ContentTotal;
    assert (l + [e])[..i + 1] == l[..i + 1] && (l + [e])[i] == l[i];
  }

  lemma EntriesAppend(r: Rows, r': Rows, e: Entry)
    requires EntriesOk(r) && r'.ledger == r.ledger + [e] && r.wallets.Keys <= r'.wallets.Keys && r.contents.Keys <= r'.contents.Keys
    requires SnapshotOk(r'.ledger, |r.ledger|) && EntryOk(e, r'.wallets.Keys, r'.contents.Keys)
    ensures EntriesOk(r')
  {
    hide SnapshotOk;
    forall i | 0 <= i < |r'.ledger|
      ensures SnapshotOk(r'.ledger, i) && EntryOk(r'.ledger[i], r'.wallets.Keys, r'.contents.Keys)
    {
      if i < |r.ledger| { SnapshotsStay(r.ledger, e, i); }
    }
  }

  lemma {:induction false} Unmentioned(l: seq<Entry>, w: WalletId)
    requires w.UserWallet? && forall e | e in l :: e.recipient != w && (e.TipEntry? ==> e.sender != w)
    ensures Balance(l, w) == 0 && TipTotal(l, w) == 0 && TipCount(l, w) == 0
  {
    if l != [] { Unmentioned(l[..|l| - 1], w); }
  }

  lemma {:induction false} UnmentionedContent(l: seq<Entry>, t: Target)
    requires forall e | e in l && e.TipEntry? :: e.target != t
    ensures ContentTotal(l, t) == 0
  {
    if l != [] { UnmentionedContent(l[..|l| - 1], t); }
  }

  // ----- The transactions

  lemma CheckInKeeps(r: Rows, u: UserId, date: DateKey, reward: nat, alive: bool)
    requires RowsOk(r) && 1 <= reward <= 3
    ensures RowsOk(CheckInUser(r, u, date, reward, alive))
  {
    hide Balance, TipTotal, TipCount, ContentTotal, Total, Rewards, EntriesOk, KeysOk;
    if CanCheckIn(r, u, date, reward, alive) {
      var e := CheckInEntryFor(r, u, date, reward);
      var r' := CheckInUser(r, u, date, reward, alive);
      FoldsAppend(r.ledger, e);
      assert r'.ledger[..|r.ledger| + 1] == r'.ledger;
      assert WalletOk(r, UserWallet(u));
      EntriesAppend(r, r', e);
      KeysAppend(r.ledger, e);
      TotalUpdate(r.wallets, UserWallet(u), r'.wallets[UserWallet(u)]);
    }
  }

  lemma KeysAppend(l: seq<Entry>, e: Entry)
    requires KeysOk(l) && (e.TipEntry? ==> FindTip(l, e.sender, e.request).None?)
    ensures KeysOk(l + [e])
  {
    assert forall i | 0 <= i < |l| :: l[i] in l;
  }

  lemma TipKeeps(r: Rows, q: Tip, alive: bool, permitted: bool)
    requires RowsOk(r) && q.sender != q.recipient && q.amount >= 2
    ensures RowsOk(TipTransaction(r, q, alive, permitted))
  {
    hide EntriesOk, KeysOk, CachesOk, OutboxOk, CheckInsOk, Total, Rewards, Moved, Tipped;
    if TipVerdict(r, q, alive, permitted).Paid? {
      TipCaches(r, q, alive, permitted);
      TipEntries(r, q, alive, permitted);
      TipOthers(r, q, alive, permitted);
      TipTotals(r, q, alive, permitted);
    }
  }

  lemma TipCaches(r: Rows, q: Tip, alive: bool, permitted: bool)
    requires CachesOk(r) && q.sender != q.recipient && TipVerdict(r, q, alive, permitted).Paid?
    ensures CachesOk(TipTransaction(r, q, alive, permitted))
  {
    hide Balance, TipTotal, TipCount, ContentTotal, FindReplay;
    var r' := TipTransaction(r, q, alive, permitted);
    FoldsAppend(r.ledger, TipEntryFor(r, q));
    forall w | w in r'.wallets
      ensures WalletOk(r', w)
    {
      assert WalletOk(r, w);
    }
  }

  lemma TipEntries(r: Rows, q: Tip, alive: bool, permitted: bool)
    requires RowsOk(r) && q.sender != q.recipient && q.amount >= 2 && TipVerdict(r, q, alive, permitted).Paid?
    ensures EntriesOk(TipTransaction(r, q, alive, permitted)) && KeysOk(TipTransaction(r, q, alive, permitted).ledger)
  {
    hide Balance, TipTotal, TipCount, ContentTotal, EntriesOk, KeysOk, OutboxOk, CheckInsOk, FindTip, SplitTip;
    var r' := TipTransaction(r, q, alive, permitted);
    var e := TipEntryFor(r, q);
    TipCaches(r, q, alive, permitted);
    assert r'.ledger[..|r.ledger| + 1] == r'.ledger;
    assert WalletOk(r', e.recipient) && WalletOk(r', e.sender) && WalletOk(r', PlatformWallet);
    EntriesAppend(r, r', e);
    KeysAppend(r.ledger, e);
  }

  lemma TipOthers(r: Rows, q: Tip, alive: bool, permitted: bool)
    requires RowsOk(r) && q.sender != q.recipient && TipVerdict(r, q, alive, permitted).Paid?
    ensures OutboxOk(TipTransaction(r, q, alive, permitted)) && CheckInsOk(TipTransaction(r, q, alive, permitted))
  {
    hide EntriesOk, KeysOk, CachesOk, FindReplay, SplitTip, Moved, Tipped;
  }

  lemma TipTotals(r: Rows, q: Tip, alive: bool, permitted: bool)
    requires RowsOk(r) && q.sender != q.recipient && TipVerdict(r, q, alive, permitted).Paid?
    ensures var r' := TipTransaction(r, q, alive, permitted); Total(r'.wallets) == Rewards(r'.ledger)
  {
    hide EntriesOk, KeysOk, CachesOk, OutboxOk, CheckInsOk, FindReplay, Balance, TipTotal, TipCount, ContentTotal, Total, Rewards;
    var from, to := UserWallet(q.sender), UserWallet(q.recipient);
    var after := Moved(r, q);
    FoldsAppend(r.ledger, TipEntryFor(r, q));
    TotalUpdate(r.wallets, from, after[from]);
    TotalUpdate(r.wallets[from := after[from]], to, after[to]);
    TotalUpdate(r.wallets[from := after[from]][to := after[to]], PlatformWallet, after[PlatformWallet]);
  }

  lemma NobodyMentions(r: Rows, u: UserId)
    requires EntriesOk(r) && UserWallet(u) !in r.wallets
    ensures forall e | e in r.ledger :: e.recipient != UserWallet(u) && (e.TipEntry? ==> e.sender != UserWallet(u))
  {
    hide SnapshotOk;
    forall e | e in r.ledger
      ensures e.recipient != UserWallet(u) && (e.TipEntry? ==> e.sender != UserWallet(u))
    {
      var i :| 0 <= i < |r.ledger| && r.ledger[i] == e;
      assert EntryOk(r.ledger[i], r.wallets.Keys, r.contents.Keys);
    }
  }

  lemma MoreWallets(r: Rows, r': Rows)
    requires EntriesOk(r) && r'.ledger == r.ledger && r.wallets.Keys <= r'.wallets.Keys && r.contents.Keys <= r'.contents.Keys
    ensures EntriesOk(r')
  {
    hide SnapshotOk;
    forall i | 0 <= i < |r'.ledger|
      ensures EntryOk(r'.ledger[i], r'.wallets.Keys, r'.contents.Keys)
    {
      assert EntryOk(r.ledger[i], r.wallets.Keys, r.contents.Keys);
    }
  }

  lemma NewWalletKeeps(r: Rows, u: UserId)
    requires RowsOk(r) && UserWallet(u) !in r.wallets
    ensures RowsOk(r.(wallets := r.wallets[UserWallet(u) := Wallet(0, 0, 0)]))
  {
    hide Balance, TipTotal, TipCount, ContentTotal, Total, Rewards, KeysOk, EntriesOk;
    NobodyMentions(r, u);
    Unmentioned(r.ledger, UserWallet(u));
    TotalUpdate(r.wallets, UserWallet(u), Wallet(0, 0, 0));
    var r' := r.(wallets := r.wallets[UserWallet(u) := Wallet(0, 0, 0)]);
    MoreWallets(r, r');
    forall w | w in r'.wallets
      ensures WalletOk(r', w)
    {
      if w != UserWallet(u) { assert WalletOk(r, w); }
    }
  }

  lemma NewContentKeeps(r: Rows, t: Target, owner: UserId)
    requires RowsOk(r) && t !in r.contents && !t.UserTarget?
    ensures RowsOk(r.(contents := r.contents[t := Content(owner, 0)]))
  {
    hide Balance, TipTotal, TipCount, ContentTotal, Total, Rewards, KeysOk, SnapshotOk;
    forall e | e in r.ledger && e.TipEntry?
      ensures e.target != t
    {
      var i :| 0 <= i < |r.ledger| && r.ledger[i] == e;
      assert EntryOk(r.ledger[i], r.wallets.Keys, r.contents.Keys);
    }
    UnmentionedContent(r.ledger, t);
    var r' := r.(contents := r.contents[t := Content(owner, 0)]);
    forall w | w in r'.wallets
      ensures WalletOk(r', w)
    {
      assert WalletOk(r, w);
    }
  }
}
