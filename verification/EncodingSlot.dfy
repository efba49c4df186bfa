/**
 The single slot for media encoding: a chain of promises in which every caller waits for the one before it and gives
 up its own gate when it is done or out of time. Each step is what happens between two `await`s of one caller.
 */
module EncodingSlot {
  type CallId = nat
  type Time = nat

  /** `After(p, c)` resolves when `p` has resolved and call `c` has released its gate. */
  datatype Promise = Resolved | After(before: Promise, gate: CallId)

  datatype Phase = Waiting | Running | TimedOut | Settled

  datatype Call = Call(before: Promise, deadline: Time, phase: Phase)

  datatype Slot = Slot(previousJob: Promise, calls: seq<Call>, released: set<CallId>)

  predicate IsResolved(p: Promise, released: set<CallId>) {
    match p
    case Resolved => true
    case After(before, gate) => IsResolved(before, released) && gate in released
  }

  predicate Done(c: Call) { c.phase == TimedOut || c.phase == Settled }

  function SetPhase(s: Slot, c: CallId, phase: Phase): Slot
    requires c < |s.calls|
  {
    s.(calls := s.calls[c := s.calls[c].(phase := phase)])
  }

  // ----- One step of a caller

  function Arrive(s: Slot, deadline: Time): Slot {
    Slot(After(s.previousJob, |s.calls|), s.calls + [Call(s.previousJob, deadline, Waiting)], s.released)
  }

  predicate CanEnter(s: Slot, c: CallId) {
    c < |s.calls| && s.calls[c].phase == Waiting && IsResolved(s.calls[c].before, s.released)
  }

  predicate CanTimeOut(s: Slot, c: CallId, now: Time) {
    c < |s.calls| && s.calls[c].phase == Waiting && s.calls[c].deadline <= now
  }

  predicate CanSettle(s: Slot, c: CallId) {
    c < |s.calls| && s.calls[c].phase == Running
  }

  function Enter(s: Slot, c: CallId): Slot
    requires CanEnter(s, c)
  {
    SetPhase(s, c, Running)
  }

  /** The `finally` block runs however the call ends. */
  function End(s: Slot, c: CallId, phase: Phase): Slot
    requires c < |s.calls|
  {
    SetPhase(s, c, phase).(released := s.released + {c})
  }

  // ----- Runs

  datatype Action = Arrival(deadline: Time) | Entry(c: CallId) | Timeout(c: CallId, now: Time) | Settlement(c: CallId)

  /** `entered` is the history of entries. */
  datatype World = World(slot: Slot, entered: seq<CallId>)

  const Empty := World(Slot(Resolved, [], {}), [])

  predicate Enabled(w: World, a: Action) {
    match a
    case Arrival(_) => true
    case Entry(c) => CanEnter(w.slot, c)
    case Timeout(c, now) => CanTimeOut(w.slot, c, now)
    case Settlement(c) => CanSettle(w.slot, c)
  }

  function Step(w: World, a: Action): World
    requires Enabled(w, a)
  {
    match a
    case Arrival(deadline) => w.(slot := Arrive(w.slot, deadline))
    case Entry(c) => World(Enter(w.slot, c), w.entered + [c])
    case Timeout(c, _) => w.(slot := End(w.slot, c, TimedOut))
    case Settlement(c) => w.(slot := End(w.slot, c, Settled))
  }

  ghost predicate IsRun(run: seq<World>, actions: seq<Action>) {
    |run| == |actions| + 1 && forall i | 0 <= i < |actions| :: Enabled(run[i], actions[i]) && run[i + 1] == Step(run[i], actions[i])
  }

  // ----- What every step keeps

  function Chain(n: nat): Promise {
    if n == 0 then Resolved else After(Chain(n - 1), n - 1)
  }

  lemma {:induction false} ChainResolved(n: nat, released: set<CallId>)
    ensures IsResolved(Chain(n), released) <==> forall c: CallId | c < n :: c in released
  {
    if n > 0 { ChainResolved(n - 1, released); }
  }

  ghost predicate Entered(c: Call) { c.phase == Running || c.phase == Settled }

  ghost predicate Inv(w: World) {
    var s := w.slot;
    s.previousJob == Chain(|s.calls|) &&
    (forall c | 0 <= c < |s.calls| :: s.calls[c].before == Chain(c) && (c in s.released <==> Done(s.calls[c]))) &&
    (forall c | c in s.released :: c < |s.calls|) &&
    (forall b, c | 0 <= b < c < |s.calls| && Entered(s.calls[c]) :: Done(s.calls[b])) &&
    (forall c | c in w.entered :: c < |s.calls| && Entered(s.calls[c])) &&
    forall i, j | 0 <= i < j < |w.entered| :: w.entered[i] < w.entered[j]
  }

  lemma ArriveKeeps(w: World, deadline: Time)
    requires Inv(w)
    ensures Inv(w.(slot := Arrive(w.slot, deadline)))
  {
    hide IsResolved;
    var s := Arrive(w.slot, deadline);
    assert forall c | 0 <= c < |w.slot.calls| :: s.calls[c] == w.slot.calls[c];
  }

  lemma EnterKeeps(w: World, c: CallId)
    requires Inv(w) && CanEnter(w.slot, c)
    ensures Inv(World(Enter(w.slot, c), w.entered + [c]))
  {
    ChainResolved(c, w.slot.released);
    hide IsResolved, Chain;
    assert forall b | 0 <= b < c :: b in w.slot.released && Done(w.slot.calls[b]);
    forall b | b in w.entered
      ensures b < c
    {
      assert Entered(w.slot.calls[b]) && !Done(w.slot.calls[c]) && !Entered(w.slot.calls[c]);
    }
    var s := Enter(w.slot, c);
    assert forall b | 0 <= b < |s.calls| && b != c :: s.calls[b] == w.slot.calls[b];
    assert forall d | c < d < |s.calls| :: !Entered(w.slot.calls[d]);
    assert forall b, d | 0 <= b < d < |s.calls| && Entered(s.calls[d]) :: Done(s.calls[b]);
    var entered := w.entered + [c];
    assert forall i | 0 <= i < |w.entered| :: entered[i] == w.entered[i] && w.entered[i] in w.entered;
    assert forall b | b in entered :: b in w.entered || b == c;
  }

  lemma EndKeeps(w: World, c: CallId, phase: Phase)
    requires Inv(w) && c < |w.slot.calls|
    requires (w.slot.calls[c].phase == Running && phase == Settled) || (w.slot.calls[c].phase == Waiting && phase == TimedOut)
    ensures Inv(w.(slot := End(w.slot, c, phase)))
  {
    hide IsResolved, Chain;
    var s := End(w.slot, c, phase);
    assert forall b | 0 <= b < |s.calls| && b != c :: s.calls[b] == w.slot.calls[b];
  }

  lemma StepKeeps(w: World, a: Action)
    requires Inv(w) && Enabled(w, a)
    ensures Inv(Step(w, a))
  {
    hide Inv, Arrive, Enter, End, IsResolved;
    match a
    case Arrival(deadline) => ArriveKeeps(w, deadline);
    case Entry(c) => EnterKeeps(w, c);
    case Timeout(c, _) => EndKeeps(w, c, TimedOut);
    case Settlement(c) => EndKeeps(w, c, Settled);
  }

  lemma {:induction false} EveryRunKeeps(run: seq<World>, actions: seq<Action>, i: nat)
    requires IsRun(run, actions) && run[0] == Empty && i < |run|
    ensures Inv(run[i])
  {
    if i > 0 {
      EveryRunKeeps(run, actions, i - 1);
      StepKeeps(run[i - 1], actions[i - 1]);
      assert run[i - 1 + 1] == Step(run[i - 1], actions[i - 1]);
    }
  }

  // ----- The theorems

  /** At most one job runs at any time. */
  lemma MutualExclusion(run: seq<World>, actions: seq<Action>, i: nat, b: CallId, c: CallId)
    requires IsRun(run, actions) && run[0] == Empty && i < |run|
    requires CanSettle(run[i].slot, b) && CanSettle(run[i].slot, c)
    ensures b == c
  {
    EveryRunKeeps(run, actions, i);
  }

  /** Jobs start in the order of arrival, whoever gave up in between. */
  lemma EntryIsFifo(run: seq<World>, actions: seq<Action>, i: nat, j: nat, k: nat)
    requires IsRun(run, actions) && run[0] == Empty && i < |run| && j < k < |run[i].entered|
    ensures run[i].entered[j] < run[i].entered[k]
  {
    EveryRunKeeps(run, actions, i);
  }

  /** While a job runs nobody behind it can enter, and a waiter that times out changes nothing about that. */
  lemma TimeoutAdmitsNobody(run: seq<World>, actions: seq<Action>, i: nat, job: CallId, waiter: CallId, now: Time, c: CallId)
    requires IsRun(run, actions) && run[0] == Empty && i < |run|
    requires CanSettle(run[i].slot, job) && CanTimeOut(run[i].slot, waiter, now)
    ensures !CanEnter(run[i].slot, c) && !CanEnter(Step(run[i], Timeout(waiter, now)).slot, c)
  {
    EveryRunKeeps(run, actions, i);
    var w := run[i];
    StepKeeps(w, Timeout(waiter, now));
    assert job != waiter;
    if c < |w.slot.calls| {
      ChainResolved(c, w.slot.released);
      ChainResolved(c, w.slot.released + {waiter});
    }
  }

  /** A call enters at most once, and never after it timed out. */
  lemma TimedOutNeverRuns(run: seq<World>, actions: seq<Action>, i: nat, c: CallId)
    requires IsRun(run, actions) && run[0] == Empty && i < |run|
    requires c < |run[i].slot.calls| && run[i].slot.calls[c].phase == TimedOut
    ensures c !in run[i].entered
  {
    EveryRunKeeps(run, actions, i);
  }

  predicate AllDone(s: Slot) {
    forall c | 0 <= c < |s.calls| :: Done(s.calls[c])
  }

  /** As long as a caller has not settled, the first of them can enter, or its job can settle. */
  lemma SomeoneGoesOn(run: seq<World>, actions: seq<Action>, i: nat) returns (c: CallId)
    requires IsRun(run, actions) && run[0] == Empty && i < |run| && !AllDone(run[i].slot)
    ensures CanEnter(run[i].slot, c) || CanSettle(run[i].slot, c)
  {
    EveryRunKeeps(run, actions, i);
    var s := run[i].slot;
    c := 0;
    while Done(s.calls[c])
      invariant c < |s.calls| && forall b | 0 <= b < c :: Done(s.calls[b])
      decreases |s.calls| - c
    {
      assert c + 1 < |s.calls| || AllDone(s);
      c := c + 1;
    }
    ChainResolved(c, s.released);
  }

  /** Steps still owed: two by a waiting call, one by a running one. */
  function Owed(calls: seq<Call>): nat {
    if calls == [] then 0
    else Owed(calls[..|calls| - 1]) +
         (match calls[|calls| - 1].phase case Waiting => 2 case Running => 1 case _ => 0)
  }

  lemma {:induction false} OwedUpdate(calls: seq<Call>, c: CallId, phase: Phase)
    requires c < |calls|
    requires (calls[c].phase == Waiting && phase != Waiting) || (calls[c].phase == Running && (phase == TimedOut || phase == Settled))
    ensures Owed(calls[c := calls[c].(phase := phase)]) < Owed(calls)
  {
    var after := calls[c := calls[c].(phase := phase)];
    if c < |calls| - 1 {
      OwedUpdate(calls[..|calls| - 1], c, phase);
      assert after[..|calls| - 1] == calls[..|calls| - 1][c := calls[c].(phase := phase)];
    } else {
      assert after[..|calls| - 1] == calls[..|calls| - 1];
    }
  }

  /** Every step but an arrival pays what is owed, so without arrivals a run has at most that many steps. */
  lemma {:induction false} RunsEnd(run: seq<World>, actions: seq<Action>)
    requires IsRun(run, actions) && forall a | a in actions :: !a.Arrival?
    ensures |actions| + Owed(run[|actions|].slot.calls) <= Owed(run[0].slot.calls)
  {
    if actions != [] {
      var n := |actions| - 1;
      assert IsRun(run[..n + 1], actions[..n]);
      RunsEnd(run[..n + 1], actions[..n]);
      assert actions[n] in actions && run[n + 1] == Step(run[n], actions[n]);
      match actions[n]
      case Entry(c) => OwedUpdate(run[n].slot.calls, c, Running);
      case Timeout(c, _) => OwedUpdate(run[n].slot.calls, c, TimedOut);
      case Settlement(c) => OwedUpdate(run[n].slot.calls, c, Settled);
      case Arrival(_) => assert false;
    }
  }

  /** If every started job settles, every caller settles: a run that cannot be continued by an entry or a settlement is over. */
  lemma EveryCallerSettles(run: seq<World>, actions: seq<Action>)
    requires IsRun(run, actions) && run[0] == Empty
    requires forall c :: !CanEnter(run[|actions|].slot, c) && !CanSettle(run[|actions|].slot, c)
    ensures AllDone(run[|actions|].slot)
  {
    if !AllDone(run[|actions|].slot) {
      var c := SomeoneGoesOn(run, actions, |actions|);
    }
  }

  // ----- The slot as the module keeps it

  class MediaEncodingSlot {
    var previousJob: Promise
    var calls: seq<Call>
    var released: set<CallId>

    function View(): Slot
      reads this
    {
      Slot(previousJob, calls, released)
    }

    constructor ()
      ensures View() == Empty.slot
    {
      previousJob, calls, released := Resolved, [], {};
    }

    /** The part of a call before its first `await`. */
    method Begin(deadline: Time) returns (c: CallId)
      modifies this
      ensures View() == Arrive(old(View()), deadline) && c == |old(calls)|
    {
      var before := previousJob;
      c := |calls|;
      previousJob := After(before, c);
      calls := calls + [Call(before, deadline, Waiting)];
    }

    method TryEnter(c: CallId) returns (acquired: bool)
      modifies this`calls
      ensures acquired <==> CanEnter(old(View()), c)
      ensures View() == if acquired then Enter(old(View()), c) else old(View())
    {
      acquired := c < |calls| && calls[c].phase == Waiting && IsResolved(calls[c].before, released);
      if acquired {
        calls := calls[c := calls[c].(phase := Running)];
      }
    }

    method TimeOut(c: CallId, now: Time) returns (gaveUp: bool)
      modifies this
      ensures gaveUp <==> CanTimeOut(old(View()), c, now)
      ensures View() == if gaveUp then End(old(View()), c, TimedOut) else old(View())
    {
      gaveUp := c < |calls| && calls[c].phase == Waiting && calls[c].deadline <= now;
      if gaveUp {
        calls := calls[c := calls[c].(phase := TimedOut)];
        released := released + {c};
      }
    }

    method Settle(c: CallId) returns (settled: bool)
      modifies this
      ensures settled <==> CanSettle(old(View()), c)
      ensures View() == if settled then End(old(View()), c, Settled) else old(View())
    {
      settled := c < |calls| && calls[c].phase == Running;
      if settled {
        calls := calls[c := calls[c].(phase := Settled)];
        released := released + {c};
      }
    }
  }
}
