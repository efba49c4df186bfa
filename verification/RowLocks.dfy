/**
 The row locks of tips, check-ins and interaction checks: every transaction takes them in one global order, users
 first, then wallets, then the content row, so no set of transactions can wait for each other in a circle.
 */
module RowLocks {
  import opened Sequences

  type TxId = nat

  datatype Resource = UserRow(id: nat) | WalletRow(id: nat) | ThreadRow(id: nat) | MomentRow(id: nat)

  function Class(r: Resource): nat {
    match r
    case UserRow(_) => 0
    case WalletRow(_) => 1
    case ThreadRow(_) => 2
    case MomentRow(_) => 3
  }

  predicate Less(a: Resource, b: Resource) {
    Class(a) < Class(b) || (Class(a) == Class(b) && a.id < b.id)
  }

  ghost predicate Ordered(program: seq<Resource>) {
    forall i, j | 0 <= i < j < |program| :: Less(program[i], program[j])
  }

  ghost predicate Increasing(ids: seq<nat>) {
    forall i, j | 0 <= i < j < |ids| :: ids[i] < ids[j]
  }

  // ----- What each transaction locks

  /** Duplicates removed, then sorted. */
  method LockOrder(userIds: seq<nat>) returns (ids: seq<nat>)
    ensures Increasing(ids) && Elements(ids) == Elements(userIds)
  {
    ids := [];
    for i := 0 to |userIds|
      invariant Increasing(ids) && Elements(ids) == Elements(userIds[..i])
    {
      assert userIds[..i + 1] == userIds[..i] + [userIds[i]];
      assert Elements(userIds[..i + 1]) == Elements(userIds[..i]) + {userIds[i]};
      if userIds[i] !in Elements(ids) {
        ids := InsertSorted(ids, userIds[i]);
      }
    }
    assert userIds[..|userIds|] == userIds;
  }

  method InsertSorted(ids: seq<nat>, x: nat) returns (r: seq<nat>)
    requires Increasing(ids) && x !in Elements(ids)
    ensures Increasing(r) && Elements(r) == Elements(ids) + {x}
  {
    var i := 0;
    while i < |ids| && ids[i] < x
      invariant 0 <= i <= |ids| && forall k | 0 <= k < i :: ids[k] < x
    {
      i := i + 1;
    }
    r := ids[..i] + [x] + ids[i..];
    Inserted(ids, i, x);
  }

  lemma Inserted(ids: seq<nat>, i: nat, x: nat)
    requires Increasing(ids) && x !in Elements(ids) && i <= |ids|
    requires (forall k | 0 <= k < i :: ids[k] < x) && (i < |ids| ==> ids[i] >= x)
    ensures var r := ids[..i] + [x] + ids[i..]; Increasing(r) && Elements(r) == Elements(ids) + {x}
  {
    InsertedIncreases(ids, i, x);
    HeadAndTail(ids, i);
    assert forall id | id in ids :: id in ids[..i] || id in ids[i..];
    assert forall id | id in ids[..i] + [x] + ids[i..] :: id in ids[..i] || id == x || id in ids[i..];
    assert x in [x];
  }

  lemma InsertedIncreases(ids: seq<nat>, i: nat, x: nat)
    requires Increasing(ids) && x !in Elements(ids) && i <= |ids|
    requires (forall k | 0 <= k < i :: ids[k] < x) && (i < |ids| ==> ids[i] >= x)
    ensures Increasing(ids[..i] + [x] + ids[i..])
  {
    var r := ids[..i] + [x] + ids[i..];
    if i < |ids| { assert ids[i] in Elements(ids); }
    forall a, b | 0 <= a < b < |r|
      ensures r[a] < r[b]
    {
      if a == i { assert r[b] == ids[b - 1]; }
    }
  }

  function UserRows(ids: seq<nat>): (r: seq<Resource>)
    ensures |r| == |ids| && forall i | 0 <= i < |ids| :: r[i] == UserRow(ids[i])
  {
    seq(|ids|, i requires 0 <= i < |ids| => UserRow(ids[i]))
  }

  function WalletRows(ids: seq<nat>): (r: seq<Resource>)
    ensures |r| == |ids| && forall i | 0 <= i < |ids| :: r[i] == WalletRow(ids[i])
  {
    seq(|ids|, i requires 0 <= i < |ids| => WalletRow(ids[i]))
  }

  /** Users and wallets in the order `LockOrder` gives them, then the thread or the moment, if any. */
  function Program(users: seq<nat>, wallets: seq<nat>, content: seq<Resource>): seq<Resource> {
    UserRows(users) + WalletRows(wallets) + content
  }

  /** Tips lock two users, three wallets and perhaps a content row; check-ins one user and one wallet; interactions users. */
  lemma ProgramsAreOrdered(users: seq<nat>, wallets: seq<nat>, content: seq<Resource>)
    requires Increasing(users) && Increasing(wallets)
    requires |content| <= 1 && forall c | c in content :: c.ThreadRow? || c.MomentRow?
    ensures Ordered(Program(users, wallets, content))
  {
    OrderedAppend(UserRows(users), WalletRows(wallets));
    OrderedAppend(UserRows(users) + WalletRows(wallets), content);
  }

  lemma OrderedAppend(a: seq<Resource>, b: seq<Resource>)
    requires Ordered(a) && Ordered(b) && forall x, y | x in a && y in b :: Less(x, y)
    ensures Ordered(a + b)
  {
    hide Less;
    forall i, j | 0 <= i < j < |a + b|
      ensures Less((a + b)[i], (a + b)[j])
    {
      if i < |a| <= j { assert (a + b)[i] in a && (a + b)[j] in b; }
    }
  }

  ghost predicate Locks(program: seq<Resource>, rows: set<Resource>) {
    Ordered(program) && (set r | r in program) == rows
  }

  /** The rows of a tip: both users, the three wallets, and the thread or moment it is for. */
  method TipProgram(sender: nat, recipient: nat, senderWallet: nat, recipientWallet: nat, platformWallet: nat, content: seq<Resource>)
    returns (program: seq<Resource>)
    requires |content| <= 1 && forall c | c in content :: c.ThreadRow? || c.MomentRow?
    ensures Locks(program, {UserRow(sender), UserRow(recipient), WalletRow(senderWallet), WalletRow(recipientWallet),
                            WalletRow(platformWallet)} + set c | c in content)
  {
    var users := LockOrder([sender, recipient]);
    var wallets := LockOrder([senderWallet, recipientWallet, platformWallet]);
    program := Program(users, wallets, content);
    ProgramsAreOrdered(users, wallets, content);
    ProgramElements(users, [sender, recipient], wallets, [senderWallet, recipientWallet, platformWallet], content);
  }

  /** A check-in locks its user, then updates its wallet. */
  method CheckInProgram(user: nat, wallet: nat) returns (program: seq<Resource>)
    ensures Locks(program, {UserRow(user), WalletRow(wallet)})
  {
    program := [UserRow(user), WalletRow(wallet)];
  }

  // ----- Several lock calls in one transaction

  /** The ids of all calls. */
  function AllIds(calls: seq<seq<nat>>): set<nat> {
    if calls == [] then {} else AllIds(calls[..|calls| - 1]) + Elements(calls[|calls| - 1])
  }

  /** A later call adds no id below one that is locked already; ids that are locked already do not count. */
  ghost predicate CallsAscend(calls: seq<seq<nat>>) {
    calls == [] ||
    (var held := AllIds(calls[..|calls| - 1]);
     CallsAscend(calls[..|calls| - 1]) && forall id, h | id in calls[|calls| - 1] && id !in held && h in held :: h < id)
  }

  /** Locking a row again does not wait: only ids that are not held yet are locked. */
  function NotHeld(ids: seq<nat>, held: set<nat>): (r: seq<nat>)
    ensures forall id :: id in r <==> id in ids && id !in held
  {
    if ids == [] then []
    else (if ids[0] in held then [] else [ids[0]]) + NotHeld(ids[1..], held)
  }

  lemma FirstIsSmallest(ids: seq<nat>)
    requires Increasing(ids) && ids != []
    ensures Increasing([ids[0]]) && Increasing(ids[1..]) && forall id | id in ids[1..] :: ids[0] < id
  {
  }

  lemma {:induction false} NotHeldIncreases(ids: seq<nat>, held: set<nat>)
    requires Increasing(ids)
    ensures Increasing(NotHeld(ids, held))
  {
    hide Increasing;
    if ids == [] {
      assert NotHeld(ids, held) == ids;
    } else {
      var rest := NotHeld(ids[1..], held);
      FirstIsSmallest(ids);
      NotHeldIncreases(ids[1..], held);
      AppendIncreases([ids[0]], rest);
      assert NotHeld(ids, held) == if ids[0] in held then rest else [ids[0]] + rest by { JoinEmpty(rest); }
    }
  }

  lemma NotHeldElements(ids: seq<nat>, held: set<nat>)
    ensures Elements(NotHeld(ids, held)) == Elements(ids) - held
  {
  }

  lemma AppendIncreases(users: seq<nat>, added: seq<nat>)
    requires Increasing(added)
    ensures Increasing(users + added) <==> Increasing(users) && forall id, h | id in added && h in users :: h < id
    ensures Elements(users + added) == Elements(users) + Elements(added)
  {
    var all := users + added;
    if Increasing(all) {
      forall id, h | id in added && h in users
        ensures h < id
      {
        var i :| 0 <= i < |users| && users[i] == h;
        var j :| 0 <= j < |added| && added[j] == id;
        assert all[i] == h && all[|users| + j] == id;
      }
      assert forall i | 0 <= i < |users| :: all[i] == users[i];
    } else if Increasing(users) && forall id, h | id in added && h in users :: h < id {
      forall i, j | 0 <= i < j < |all|
        ensures all[i] < all[j]
      {
        if i < |users| <= j { assert all[i] in users && all[j] in added; }
      }
    }
  }

  /** The users a transaction locks with its calls, in the order in which it comes to hold them. */
  method LockInTurn(calls: seq<seq<nat>>) returns (users: seq<nat>)
    ensures Elements(users) == AllIds(calls)
    ensures Increasing(users) <==> CallsAscend(calls)
  {
    hide Increasing, Elements;
    users := [];
    assert Increasing([]) && Elements<nat>([]) == {} by { NobodyLocked(); }
    for k := 0 to |calls|
      invariant Elements(users) == AllIds(calls[..k])
      invariant Increasing(users) <==> CallsAscend(calls[..k])
    {
      assert calls[..k + 1][..k] == calls[..k] && calls[..k + 1][k] == calls[k];
      var ids := LockOrder(calls[k]);
      var held := Elements(users);
      var added := NotHeld(ids, held);
      NotHeldIncreases(ids, held);
      NotHeldElements(ids, held);
      AppendIncreases(users, added);
      AddedIds(calls[k], added, users, held);
      users := users + added;
    }
    assert calls[..|calls|] == calls;
  }

  lemma NobodyLocked()
    ensures Increasing([]) && Elements<nat>([]) == {}
  {
  }

  lemma AddedIds(ids: seq<nat>, added: seq<nat>, users: seq<nat>, held: set<nat>)
    requires Elements(added) == Elements(ids) - held && Elements(users) == held
    ensures (forall id, h | id in added && h in users :: h < id) <==> forall id, h | id in ids && id !in held && h in held :: h < id
  {
    assert forall id :: (id in added <==> id in Elements(added)) && (id in ids <==> id in Elements(ids));
    assert forall h :: h in users <==> h in Elements(users);
  }

  /**
   The interaction checks of one transaction, before it locks any content: everybody involved is locked, and in the
   global order exactly when no later check brings in a smaller id.
   */
  method InteractionProgram(calls: seq<seq<nat>>) returns (program: seq<Resource>)
    ensures (set r | r in program) == set id | id in AllIds(calls) :: UserRow(id)
    ensures Ordered(program) <==> CallsAscend(calls)
  {
    hide CallsAscend, AllIds;
    var users := LockInTurn(calls);
    program := Program(users, [], []);
    ProgramElements(users, users, [], [], []);
    UsersOrdered(users);
    assert program == UserRows(users);
  }

  lemma UsersOrdered(users: seq<nat>)
    ensures Ordered(UserRows(users)) <==> Increasing(users)
  {
    var rows := UserRows(users);
    if Ordered(rows) {
      forall i, j | 0 <= i < j < |users|
        ensures users[i] < users[j]
      {
        assert Less(rows[i], rows[j]);
      }
    }
  }

  /** A single check is in order, and so is one that is followed by checks among the users it has locked. */
  lemma {:induction false} RepeatedChecksAscend(calls: seq<seq<nat>>)
    requires forall k | 0 < k < |calls| :: Elements(calls[k]) <= Elements(calls[0])
    ensures CallsAscend(calls) && (calls != [] ==> AllIds(calls) == Elements(calls[0]))
  {
    if calls != [] {
      var front, last := calls[..|calls| - 1], calls[|calls| - 1];
      assert forall k | 0 < k < |front| :: front[k] == calls[k];
      RepeatedChecksAscend(front);
      assert forall id | id in last :: id in Elements(last);
      if front == [] { assert AllIds(front) == {}; }
    }
  }

  lemma ProgramElements(users: seq<nat>, us: seq<nat>, wallets: seq<nat>, ws: seq<nat>, content: seq<Resource>)
    requires Elements(users) == Elements(us) && Elements(wallets) == Elements(ws)
    ensures (set r | r in Program(users, wallets, content)) ==
            (set u | u in us :: UserRow(u)) + (set x | x in ws :: WalletRow(x)) + set c | c in content
  {
    var program := Program(users, wallets, content);
    forall r
      ensures r in program <==> r in UserRows(users) || r in WalletRows(wallets) || r in content
    {
    }
    forall u
      ensures UserRow(u) in UserRows(users) <==> u in us
    {
      if u in us {
        assert u in Elements(users);
        var i :| 0 <= i < |users| && users[i] == u;
        assert UserRows(users)[i] == UserRow(u);
      }
      if UserRow(u) in UserRows(users) {
        var i :| 0 <= i < |users| && UserRows(users)[i] == UserRow(u);
        assert users[i] in Elements(us);
      }
    }
    forall x
      ensures WalletRow(x) in WalletRows(wallets) <==> x in ws
    {
      if x in ws {
        assert x in Elements(wallets);
        var i :| 0 <= i < |wallets| && wallets[i] == x;
        assert WalletRows(wallets)[i] == WalletRow(x);
      }
      if WalletRow(x) in WalletRows(wallets) {
        var i :| 0 <= i < |wallets| && WalletRows(wallets)[i] == WalletRow(x);
        assert wallets[i] in Elements(ws);
      }
    }
  }

  // ----- Transactions running at once

  /** The first `held` rows of the program are locked. */
  datatype Tx = Tx(program: seq<Resource>, held: nat)

  type World = map<TxId, Tx>

  ghost predicate Holds(w: World, t: TxId, r: Resource) {
    t in w && w[t].held <= |w[t].program| && r in w[t].program[..w[t].held]
  }

  predicate Wants(w: World, t: TxId) {
    t in w && w[t].held < |w[t].program|
  }

  function Next(w: World, t: TxId): Resource
    requires Wants(w, t)
  {
    w[t].program[w[t].held]
  }

  ghost predicate Free(w: World, r: Resource) {
    forall u | u in w :: !Holds(w, u, r)
  }

  ghost predicate WaitsFor(w: World, t: TxId, u: TxId) {
    Wants(w, t) && Holds(w, u, Next(w, t))
  }

  /** A transaction begins with an ordered program, locks its next row when nobody holds it, and ends at any time. */
  ghost predicate Step(w: World, w': World) {
    (exists t: TxId, program :: t !in w && Ordered(program) && w' == w[t := Tx(program, 0)]) ||
    (exists t: TxId :: Wants(w, t) && Free(w, Next(w, t)) && w' == w[t := w[t].(held := w[t].held + 1)]) ||
    (exists t: TxId :: t in w && w' == w - {t})
  }

  ghost predicate IsRun(run: seq<World>) {
    run != [] && run[0] == map[] && forall i | 0 <= i < |run| - 1 :: Step(run[i], run[i + 1])
  }

  ghost predicate TxOk(x: Tx) {
    Ordered(x.program) && x.held <= |x.program|
  }

  ghost predicate Exclusive(w: World) {
    forall t, u, r | Holds(w, t, r) && Holds(w, u, r) :: t == u
  }

  ghost predicate Inv(w: World) {
    (forall t | t in w :: TxOk(w[t])) && Exclusive(w)
  }

  lemma StepKeeps(w: World, w': World)
    requires Inv(w) && Step(w, w')
    ensures Inv(w')
  {
    hide Ordered;
    if t: TxId :| Wants(w, t) && Free(w, Next(w, t)) && w' == w[t := w[t].(held := w[t].held + 1)] {
      LockKeeps(w, t);
    } else if t: TxId, program :| t !in w && Ordered(program) && w' == w[t := Tx(program, 0)] {
      forall u, r | Holds(w', u, r)
        ensures Holds(w, u, r)
      {
      }
    } else {
      var t: TxId :| t in w && w' == w - {t};
      forall u, r | Holds(w', u, r)
        ensures Holds(w, u, r)
      {
      }
    }
  }

  lemma LockKeeps(w: World, t: TxId)
    requires Inv(w) && Wants(w, t) && Free(w, Next(w, t))
    ensures Inv(w[t := w[t].(held := w[t].held + 1)])
  {
    var w' := w[t := w[t].(held := w[t].held + 1)];
    forall u, r | Holds(w', u, r)
      ensures Holds(w, u, r) || (u == t && r == Next(w, t))
    {
      assert w[t].program[..w[t].held + 1] == w[t].program[..w[t].held] + [Next(w, t)];
    }
  }

  lemma {:induction false} EveryRunKeeps(run: seq<World>, i: nat)
    requires IsRun(run) && i < |run|
    ensures Inv(run[i])
  {
    if i > 0 {
      EveryRunKeeps(run, i - 1);
      assert Step(run[i - 1], run[i - 1 + 1]);
      StepKeeps(run[i - 1], run[i]);
    }
  }

  // ----- No deadlock

  /** A transaction that is waited for, and waits itself, waits for a row further on in the order. */
  lemma WaitingMovesOn(w: World, t: TxId, u: TxId)
    requires Inv(w) && WaitsFor(w, t, u) && Wants(w, u)
    ensures Less(Next(w, t), Next(w, u))
  {
    var i :| 0 <= i < w[u].held && w[u].program[i] == Next(w, t);
    assert TxOk(w[u]);
  }

  ghost predicate Cycle(w: World, ts: seq<TxId>) {
    |ts| >= 2 && ts[0] == ts[|ts| - 1] && forall i | 0 <= i < |ts| - 1 :: WaitsFor(w, ts[i], ts[i + 1])
  }

  lemma {:induction false} AlongTheChain(w: World, ts: seq<TxId>, i: nat)
    requires Inv(w) && 0 < i < |ts| && Wants(w, ts[i])
    requires forall k | 0 <= k < |ts| - 1 :: WaitsFor(w, ts[k], ts[k + 1])
    ensures Wants(w, ts[0]) && Less(Next(w, ts[0]), Next(w, ts[i]))
  {
    assert WaitsFor(w, ts[i - 1], ts[i - 1 + 1]);
    WaitingMovesOn(w, ts[i - 1], ts[i]);
    if i > 1 { AlongTheChain(w, ts, i - 1); }
  }

  /** In every state any set of transactions reaches, nobody waits for itself, directly or through others. */
  lemma WaitsForIsAcyclic(run: seq<World>, i: nat, ts: seq<TxId>)
    requires IsRun(run) && i < |run|
    ensures !Cycle(run[i], ts)
  {
    EveryRunKeeps(run, i);
    var w := run[i];
    if Cycle(w, ts) {
      assert WaitsFor(w, ts[0], ts[0 + 1]);
      AlongTheChain(w, ts, |ts| - 1);
      assert false;
    }
  }

  /** A transaction that can go on: it has all its rows, or its next row is free. */
  ghost predicate CanGoOn(w: World, t: TxId) {
    t in w && (Wants(w, t) ==> Free(w, Next(w, t)))
  }

  /** The waiting transactions further on than `t`. */
  ghost function FurtherOn(w: World, t: TxId): set<TxId>
    requires Wants(w, t)
  {
    set u | u in w && Wants(w, u) && Less(Next(w, t), Next(w, u))
  }

  lemma {:induction false} SomeoneGoesOn(w: World, t: TxId) returns (u: TxId)
    requires Inv(w) && t in w
    ensures CanGoOn(w, u)
    decreases if Wants(w, t) then |FurtherOn(w, t)| + 1 else 0
  {
    if CanGoOn(w, t) {
      u := t;
    } else {
      var v :| v in w && Holds(w, v, Next(w, t));
      if Wants(w, v) {
        WaitingMovesOn(w, t, v);
        assert FurtherOn(w, v) < FurtherOn(w, t) by {
          assert v in FurtherOn(w, t) && v !in FurtherOn(w, v);
        }
        Smaller(FurtherOn(w, v), FurtherOn(w, t));
      }
      u := SomeoneGoesOn(w, v);
    }
  }

  lemma {:induction false} Smaller(a: set<TxId>, b: set<TxId>)
    requires a < b
    ensures |a| < |b|
  {
    if a == {} {
    } else {
      var x :| x in a;
      Smaller(a - {x}, b - {x});
    }
  }

  /** While any transaction is open, some open transaction can lock its next row or end. */
  lemma NeverStuck(run: seq<World>, i: nat)
    requires IsRun(run) && i < |run| && run[i] != map[]
    ensures exists t :: CanGoOn(run[i], t)
  {
    EveryRunKeeps(run, i);
    var t :| t in run[i];
    var u := SomeoneGoesOn(run[i], t);
  }
}
