/**
 Dispatching a notification campaign to its audience in batches. Several workers can hold the campaign at once, because
 a lease runs out while its worker is only slow; all of them move the one persisted cursor.
 */
module CampaignDispatch {
  import opened Options
  import opened Sequences

  type UserId = nat
  type Time = nat
  type WorkerId = nat

  const LEASE_MS: nat := 5 * 60_000
  const BATCH_SIZE: nat := 500
  const MAX_ATTEMPTS: nat := 10

  datatype Status = SCHEDULED | SENDING | SENT | FAILED | CANCELED

  datatype Campaign = Campaign(
    status: Status, scheduledAt: Time, lastAttemptAt: Option<Time>, attempts: nat, cursor: Option<UserId>, recipientCount: nat)

  /** Ids in ascending order, each once. */
  ghost predicate Ascending(ids: seq<UserId>) {
    forall i, j | 0 <= i < j < |ids| :: ids[i] < ids[j]
  }

  predicate Past(cursor: Option<UserId>, id: UserId) {
    match cursor
    case None => true
    case Some(c) => id > c
  }

  function Remaining(audience: seq<UserId>, cursor: Option<UserId>): (r: seq<UserId>)
    ensures forall id | id in r :: id in audience && Past(cursor, id)
    ensures forall id | id in audience && Past(cursor, id) :: id in r
    ensures |r| <= |audience|
  {
    if audience == [] then []
    else (if Past(cursor, audience[0]) then [audience[0]] else []) + Remaining(audience[1..], cursor)
  }

  function NextBatch(audience: seq<UserId>, cursor: Option<UserId>): seq<UserId> {
    var rest := Remaining(audience, cursor);
    if |rest| > BATCH_SIZE then rest[..BATCH_SIZE] else rest
  }

  // ----- Single updates

  predicate DueFirst(c: Campaign, now: Time) { c.status == SCHEDULED && c.scheduledAt <= now }

  predicate DueAgain(c: Campaign, now: Time) {
    c.status == SENDING && (c.lastAttemptAt.None? || c.lastAttemptAt.value + LEASE_MS <= now) && c.attempts < MAX_ATTEMPTS
  }

  predicate CanClaim(c: Campaign, now: Time) { DueFirst(c, now) || DueAgain(c, now) }

  function Claim(c: Campaign, now: Time): Campaign {
    if CanClaim(c, now) then c.(status := SENDING, lastAttemptAt := Some(now), attempts := c.attempts + 1) else c
  }

  function SaveCursor(c: Campaign, now: Time, cursor: UserId, count: nat): Campaign {
    if c.status == SENDING then c.(cursor := Some(cursor), recipientCount := c.recipientCount + count, lastAttemptAt := Some(now))
    else c
  }

  function Finish(c: Campaign): Campaign { c.(status := SENT) }

  /** After an error: terminal only for the last attempt. */
  function RecordFailure(c: Campaign): Campaign {
    if c.status == SENDING && c.attempts >= MAX_ATTEMPTS then c.(status := FAILED) else c
  }

  function Cancel(c: Campaign): Campaign { c.(status := CANCELED) }

  // ----- What they do, on the fields of the row

  /** Due and not started, or started by someone whose lease of five minutes is over, with fewer than ten attempts made. */
  ghost predicate MayClaim(c: Campaign, now: Time) {
    (c.status == SCHEDULED && now >= c.scheduledAt) ||
    (c.status == SENDING && c.attempts < 10 && (c.lastAttemptAt.Some? ==> now >= c.lastAttemptAt.value + 300_000))
  }

  /** One more attempt, under a new lease; the plan and the progress made so far stay. */
  ghost predicate Attempted(c: Campaign, c': Campaign, now: Time) {
    c'.status == SENDING && c'.attempts == c.attempts + 1 && c'.lastAttemptAt == Some(now) &&
    c'.scheduledAt == c.scheduledAt && c'.cursor == c.cursor && c'.recipientCount == c.recipientCount
  }

  /** While it is being sent, the cursor and the count move and the lease is renewed. */
  ghost predicate Saved(c: Campaign, c': Campaign, now: Time, last: UserId, count: nat) {
    if c.status != SENDING then c' == c
    else c'.cursor == Some(last) && c'.recipientCount == c.recipientCount + count && c'.lastAttemptAt == Some(now) &&
         c'.status == SENDING && c'.attempts == c.attempts && c'.scheduledAt == c.scheduledAt
  }

  /** Only the status is written. */
  ghost predicate Renamed(c: Campaign, c': Campaign, status: Status) {
    c'.status == status && c'.attempts == c.attempts && c'.lastAttemptAt == c.lastAttemptAt &&
    c'.scheduledAt == c.scheduledAt && c'.cursor == c.cursor && c'.recipientCount == c.recipientCount
  }

  /** The next at most five hundred members past the cursor, in order and without gaps. */
  ghost predicate IsNextBatch(audience: seq<UserId>, cursor: Option<UserId>, batch: seq<UserId>) {
    |batch| <= 500 &&
    (forall i: nat, j: nat | i < j < |batch| :: batch[i] < batch[j]) &&
    (forall id | id in batch :: id in audience && (cursor.Some? ==> id > cursor.value)) &&
    (forall id | id in audience && (cursor.Some? ==> id > cursor.value) ::
       id in batch || (|batch| == 500 && id > batch[|batch| - 1]))
  }

  lemma BatchIsNext(audience: seq<UserId>, cursor: Option<UserId>)
    requires Ascending(audience)
    ensures IsNextBatch(audience, cursor, NextBatch(audience, cursor))
  {
    hide Remaining;
    RemainingAscends(audience, cursor);
    var rest, batch := Remaining(audience, cursor), NextBatch(audience, cursor);
    forall id | id in batch
      ensures id in audience && (cursor.Some? ==> id > cursor.value)
    {
      assert id in rest && Past(cursor, id);
    }
    forall id | id in audience && (cursor.Some? ==> id > cursor.value)
      ensures id in batch || (|batch| == 500 && id > batch[|batch| - 1])
    {
      assert Past(cursor, id);
      var i :| 0 <= i < |rest| && rest[i] == id;
      if i < |batch| { assert batch[i] == id; }
    }
  }

  // ----- Covering the audience

  /** Everyone up to the cursor has been notified. */
  ghost predicate Covered(audience: seq<UserId>, notified: set<UserId>, cursor: Option<UserId>) {
    forall id | id in audience && !Past(cursor, id) :: id in notified
  }

  ghost predicate Everyone(audience: seq<UserId>, notified: set<UserId>) {
    forall id | id in audience :: id in notified
  }

  lemma RemainingUnfolds(audience: seq<UserId>, cursor: Option<UserId>)
    requires |audience| > 0
    ensures Past(cursor, audience[0]) ==> Remaining(audience, cursor) == [audience[0]] + Remaining(audience[1..], cursor)
    ensures !Past(cursor, audience[0]) ==> Remaining(audience, cursor) == Remaining(audience[1..], cursor)
  {
  }

  lemma RemainingIsLater(audience: seq<UserId>, cursor: Option<UserId>, k: nat)
    requires Ascending(audience) && |audience| > 0 && k < |Remaining(audience[1..], cursor)|
    ensures audience[0] < Remaining(audience[1..], cursor)[k]
    ensures Past(cursor, Remaining(audience[1..], cursor)[k])
  {
    var rest := Remaining(audience[1..], cursor);
    assert rest[k] in rest;
  }

  lemma NobodyRemains(audience: seq<UserId>, cursor: Option<UserId>)
    requires |audience| == 0
    ensures |Remaining(audience, cursor)| == 0
  {
  }

  lemma TailAscends(audience: seq<UserId>)
    requires Ascending(audience) && |audience| > 0
    ensures Ascending(audience[1..])
  {
  }

  lemma {:induction false} RemainingAscends(audience: seq<UserId>, cursor: Option<UserId>)
    requires Ascending(audience)
    ensures Ascending(Remaining(audience, cursor))
  {
    hide Remaining;
    if |audience| == 0 {
      NobodyRemains(audience, cursor);
    } else {
      RemainingAscends(audience[1..], cursor);
      RemainingUnfolds(audience, cursor);
      forall k: nat | k < |Remaining(audience[1..], cursor)|
        ensures audience[0] < Remaining(audience[1..], cursor)[k]
      {
        RemainingIsLater(audience, cursor, k);
      }
    }
  }

  /** After a batch is notified the cursor may move to its last member; a short batch is the last one. */
  lemma BatchCovers(audience: seq<UserId>, notified: set<UserId>, cursor: Option<UserId>)
    requires Ascending(audience) && Covered(audience, notified, cursor)
    ensures var batch := NextBatch(audience, cursor);
            (batch != [] ==> Covered(audience, notified + Elements(batch), Some(batch[|batch| - 1])) && Past(cursor, batch[|batch| - 1])) &&
            (|batch| < BATCH_SIZE ==> Everyone(audience, notified + Elements(batch)))
  {
    hide Remaining;
    RemainingAscends(audience, cursor);
    var rest := Remaining(audience, cursor);
    var batch := NextBatch(audience, cursor);
    if batch != [] {
      var last := batch[|batch| - 1];
      assert last == rest[|batch| - 1];
      forall id | id in audience && id <= last
        ensures id in notified + Elements(batch)
      {
        if Past(cursor, id) {
          var i :| 0 <= i < |rest| && rest[i] == id;
          assert i < |batch| && batch[i] == id;
        }
      }
    }
  }

  /** How far the audience still reaches past the cursor. */
  lemma {:induction false} CursorAdvances(audience: seq<UserId>, cursor: Option<UserId>, next: UserId)
    requires Past(cursor, next)
    ensures |Remaining(audience, Some(next))| <= |Remaining(audience, cursor)|
    ensures next in audience ==> |Remaining(audience, Some(next))| < |Remaining(audience, cursor)|
  {
    if audience != [] { CursorAdvances(audience[1..], cursor, next); }
  }

  lemma {:induction false} AllRemain(audience: seq<UserId>, cursor: Option<UserId>)
    requires forall i | 0 <= i < |audience| :: Past(cursor, audience[i])
    ensures Remaining(audience, cursor) == audience
  {
    if audience != [] { AllRemain(audience[1..], cursor); }
  }

  lemma LaterArePast(audience: seq<UserId>, cursor: Option<UserId>)
    requires Ascending(audience) && |audience| > 0 && Past(cursor, audience[0])
    ensures Remaining(audience[1..], cursor) == audience[1..] && Remaining(audience[1..], Some(audience[0])) == audience[1..]
  {
    hide Remaining;
    AllRemain(audience[1..], cursor);
    AllRemain(audience[1..], Some(audience[0]));
  }

  /** What remains past a member of the audience that remained. */
  lemma {:induction false} RemainingPast(audience: seq<UserId>, cursor: Option<UserId>, k: nat)
    requires Ascending(audience) && k < |Remaining(audience, cursor)|
    ensures Remaining(audience, Some(Remaining(audience, cursor)[k])) == Remaining(audience, cursor)[k + 1..]
  {
    hide Remaining, Ascending;
    if |audience| == 0 {
      NobodyRemains(audience, cursor);
    } else {
      RemainingUnfolds(audience, cursor);
      RemainingUnfolds(audience, Some(Remaining(audience, cursor)[k]));
      TailAscends(audience);
      if !Past(cursor, audience[0]) {
        RemainingIsLater(audience, cursor, k);
        RemainingPast(audience[1..], cursor, k);
      } else if k == 0 {
        LaterArePast(audience, cursor);
      } else {
        RemainingIsLater(audience, cursor, k - 1);
        RemainingPast(audience[1..], cursor, k - 1);
      }
    }
  }

  /** The members past the cursor. */
  ghost function PastMembers(audience: seq<UserId>, cursor: Option<UserId>): set<UserId> {
    set id | id in audience && (cursor.Some? ==> id > cursor.value)
  }

  lemma HeadOrTail(audience: seq<UserId>, id: UserId)
    requires |audience| > 0
    ensures id in audience <==> id == audience[0] || id in audience[1..]
  {
    HeadAndTail(audience, 1);
  }

  lemma HeadOnce(audience: seq<UserId>)
    requires Ascending(audience) && |audience| > 0
    ensures audience[0] !in audience[1..]
  {
  }

  lemma OneMoreMember(audience: seq<UserId>, cursor: Option<UserId>)
    requires Ascending(audience) && |audience| > 0
    ensures |PastMembers(audience, cursor)| == (if Past(cursor, audience[0]) then 1 else 0) + |PastMembers(audience[1..], cursor)|
  {
    hide Ascending;
    var head, rest := audience[0], PastMembers(audience[1..], cursor);
    HeadOnce(audience);
    var all := (if Past(cursor, head) then {head} else {}) + rest;
    forall id
      ensures id in PastMembers(audience, cursor) <==> id in all
    {
      HeadOrTail(audience, id);
    }
    assert PastMembers(audience, cursor) == all;
  }

  lemma {:induction false} AheadRemain(audience: seq<UserId>, cursor: Option<UserId>)
    requires Ascending(audience)
    ensures |Remaining(audience, cursor)| == |PastMembers(audience, cursor)|
  {
    hide Remaining, PastMembers, Ascending;
    if |audience| == 0 {
      NobodyRemains(audience, cursor);
      assert PastMembers(audience, cursor) == {} by { NobodyPast(audience, cursor); }
    } else {
      TailAscends(audience);
      AheadRemain(audience[1..], cursor);
      OneMoreMember(audience, cursor);
      RemainingUnfolds(audience, cursor);
    }
  }

  lemma NobodyPast(audience: seq<UserId>, cursor: Option<UserId>)
    requires |audience| == 0
    ensures PastMembers(audience, cursor) == {}
  {
  }

  /** A batch makes what remains shorter by its length; a short one leaves nothing. */
  lemma BatchCounts(audience: seq<UserId>, cursor: Option<UserId>)
    requires Ascending(audience) && |NextBatch(audience, cursor)| > 0
    ensures var batch := NextBatch(audience, cursor);
            var left := Remaining(audience, Some(batch[|batch| - 1]));
            |left| == |Remaining(audience, cursor)| - |batch| && (|batch| < BATCH_SIZE ==> |left| == 0)
  {
    hide Remaining, Ascending;
    RemainingPast(audience, cursor, |NextBatch(audience, cursor)| - 1);
  }

  lemma NothingLeft(audience: seq<UserId>, cursor: Option<UserId>)
    requires NextBatch(audience, cursor) == []
    ensures |Remaining(audience, cursor)| == 0
  {
    hide Remaining;
  }

  // ----- The dispatcher

  class CampaignDatabase {
    const audience: seq<UserId>
    var campaign: Campaign
    var notified: set<UserId>

    constructor (audience: seq<UserId>, scheduledAt: Time)
      ensures this.audience == audience && notified == {}
      ensures campaign == Campaign(SCHEDULED, scheduledAt, None, 0, None, 0)
    {
      this.audience := audience;
      campaign := Campaign(SCHEDULED, scheduledAt, None, 0, None, 0);
      notified := {};
    }

    /** At most one of the two guarded updates takes effect. */
    method ClaimCampaign(now: Time) returns (count: nat)
      modifies this`campaign
      ensures campaign == Claim(old(campaign), now) && count == if CanClaim(old(campaign), now) then 1 else 0
      ensures MayClaim(old(campaign), now) ==> count == 1 && Attempted(old(campaign), campaign, now)
      ensures !MayClaim(old(campaign), now) ==> count == 0 && campaign == old(campaign)
    {
      count := 0;
      if campaign.status == SCHEDULED && campaign.scheduledAt <= now {
        campaign := campaign.(status := SENDING, lastAttemptAt := Some(now), attempts := campaign.attempts + 1);
        count := 1;
      }
      if count == 0 {
        if campaign.status == SENDING && (campaign.lastAttemptAt.None? || campaign.lastAttemptAt.value <= now - LEASE_MS) &&
           campaign.attempts < MAX_ATTEMPTS {
          campaign := campaign.(lastAttemptAt := Some(now), attempts := campaign.attempts + 1);
          count := 1;
        }
      }
    }

    /** A dispatch that runs to its end notifies everyone who was not covered yet, whatever cursor it starts from. */
    method Dispatch(now: Time) returns (claimed: bool)
      requires Ascending(audience) && Covered(audience, notified, campaign.cursor)
      modifies this
      ensures claimed <==> MayClaim(old(campaign), now)
      ensures !claimed ==> campaign == old(campaign) && notified == old(notified)
      ensures claimed ==> campaign.status == SENT && campaign.attempts == old(campaign).attempts + 1
      ensures claimed ==> Everyone(audience, notified) && Covered(audience, notified, campaign.cursor)
      ensures old(notified) <= notified <= old(notified) + Elements(audience)
      ensures claimed ==> campaign.recipientCount == old(campaign).recipientCount + |PastMembers(audience, old(campaign).cursor)|
      ensures claimed ==> campaign.scheduledAt == old(campaign).scheduledAt && campaign.lastAttemptAt == Some(now)
    {
      hide Remaining, NextBatch, PastMembers, Ascending, Covered, Everyone;
      var count := ClaimCampaign(now);
      if count != 1 { return false; }
      var cursor := campaign.cursor;
      var done := false;
      while !done
        invariant campaign.status == SENDING && campaign.attempts == old(campaign).attempts + 1
        invariant Covered(audience, notified, cursor) && Covered(audience, notified, campaign.cursor)
        invariant old(notified) <= notified <= old(notified) + Elements(audience)
        invariant done ==> Everyone(audience, notified) && |Remaining(audience, cursor)| == 0
        invariant campaign.recipientCount + |Remaining(audience, cursor)| == old(campaign).recipientCount + |Remaining(audience, old(campaign).cursor)|
        invariant campaign.scheduledAt == old(campaign).scheduledAt && campaign.lastAttemptAt == Some(now)
        decreases !done, |Remaining(audience, cursor)|
      {
        var users := NextBatch(audience, cursor);
        BatchCovers(audience, notified, cursor);
        BatchIsAudience(audience, cursor);
        if users == [] {
          NothingLeft(audience, cursor);
          assert notified + Elements(users) == notified;
          done := true;
        } else {
          BatchCounts(audience, cursor);
          notified := notified + Elements(users);
          CursorAdvances(audience, cursor, users[|users| - 1]);
          cursor := Some(users[|users| - 1]);
          if campaign.status == SENDING {
            campaign := campaign.(cursor := cursor, recipientCount := campaign.recipientCount + |users|, lastAttemptAt := Some(now));
          }
          if |users| < BATCH_SIZE {
            done := true;
          }
        }
      }
      campaign := campaign.(status := SENT);
      AheadRemain(audience, old(campaign).cursor);
      return true;
    }
  }

  lemma BatchIsAudience(audience: seq<UserId>, cursor: Option<UserId>)
    ensures forall id | id in NextBatch(audience, cursor) :: id in audience
  {
    var rest := Remaining(audience, cursor);
    assert forall id | id in NextBatch(audience, cursor) :: id in rest;
  }
}

/** Overlapping leases, slow workers and crashes. */
module CampaignProtocol {
  import opened Options
  import opened Sequences
  import opened CampaignDispatch

  /** Where a worker or a cancellation stands between two of its steps; it can stop at any of them. */
  datatype Process =
    | Idle
    | Claimed
    | Working(cursor: Option<UserId>)
    | Fetched(cursor: Option<UserId>, batch: seq<UserId>)
    | Notified(last: UserId, count: nat)
    | Finishing
    | Canceling

  datatype World = World(
    audience: seq<UserId>, campaign: Campaign, clock: Time, workers: map<WorkerId, Process>, notified: set<UserId>)

  /** A worker claims with the clock it read before the update. */
  datatype Action =
    | Tick(ms: nat)
    | TryClaim(p: WorkerId, now: Time)
    | ReadCampaign(p: WorkerId)
    | Fetch(p: WorkerId)
    | Notify(p: WorkerId)
    | NotifyFails(p: WorkerId, some: set<UserId>)
    | Save(p: WorkerId)
    | Complete(p: WorkerId)
    | Fail(p: WorkerId)
    | ReadToCancel(p: WorkerId)
    | CommitCancel(p: WorkerId)

  function Start(audience: seq<UserId>, scheduledAt: Time): World {
    World(audience, Campaign(SCHEDULED, scheduledAt, None, 0, None, 0), 0, map[], {})
  }

  function At(w: World, p: WorkerId): Process {
    if p in w.workers then w.workers[p] else Idle
  }

  function Become(w: World, p: WorkerId, s: Process): World {
    w.(workers := w.workers[p := s])
  }

  function Step(w: World, act: Action): World {
    match act
    case Tick(ms) => w.(clock := w.clock + ms)
    case TryClaim(p, now) =>
      if At(w, p).Idle? && now <= w.clock && CanClaim(w.campaign, now) then Become(w.(campaign := Claim(w.campaign, now)), p, Claimed)
      else w
    case ReadCampaign(p) => if At(w, p).Claimed? then Become(w, p, Working(w.campaign.cursor)) else w
    case Fetch(p) =>
      (match At(w, p)
       case Working(cursor) =>
         var batch := NextBatch(w.audience, cursor);
         Become(w, p, if batch == [] then Finishing else Fetched(cursor, batch))
       case _ => w)
    case Notify(p) =>
      (match At(w, p)
       case Fetched(_, batch) =>
         if batch == [] then w
         else Become(w.(notified := w.notified + Elements(batch)), p, Notified(batch[|batch| - 1], |batch|))
       case _ => w)
    case NotifyFails(p, some) =>
      (match At(w, p)
       case Fetched(_, batch) => w.(notified := w.notified + some * Elements(batch))
       case _ => w)
    case Save(p) =>
      (match At(w, p)
       case Notified(last, count) =>
         Become(w.(campaign := SaveCursor(w.campaign, w.clock, last, count)), p,
                if count < BATCH_SIZE then Finishing else Working(Some(last)))
       case _ => w)
    case Complete(p) => if At(w, p).Finishing? then Become(w.(campaign := Finish(w.campaign)), p, Idle) else w
    case Fail(p) => if At(w, p).Canceling? then w else Become(w.(campaign := RecordFailure(w.campaign)), p, Idle)
    case ReadToCancel(p) => if w.campaign.status == SCHEDULED && At(w, p).Idle? then Become(w, p, Canceling) else w
    case CommitCancel(p) => if At(w, p).Canceling? then Become(w.(campaign := Cancel(w.campaign)), p, Idle) else w
  }

  function Run(w: World, trace: seq<Action>): World {
    if trace == [] then w else Step(Run(w, trace[..|trace| - 1]), trace[|trace| - 1])
  }

  ghost predicate ProcessOk(audience: seq<UserId>, notified: set<UserId>, s: Process) {
    match s
    case Working(cursor) => Covered(audience, notified, cursor)
    case Fetched(cursor, batch) => Covered(audience, notified, cursor) && batch == NextBatch(audience, cursor) && batch != []
    case Notified(last, count) =>
      Covered(audience, notified, Some(last)) && (count < BATCH_SIZE ==> Everyone(audience, notified))
    case Finishing => Everyone(audience, notified)
    case _ => true
  }

  /** A worker that has claimed the campaign and not yet completed or given up its dispatch. */
  predicate Active(s: Process) { !s.Idle? && !s.Canceling? }

  ghost predicate NobodyActive(workers: map<WorkerId, Process>) {
    forall p | p in workers :: !Active(workers[p])
  }

  ghost predicate CampaignOk(audience: seq<UserId>, notified: set<UserId>, c: Campaign) {
    Covered(audience, notified, c.cursor) && c.attempts <= MAX_ATTEMPTS && (c.status == SCHEDULED ==> c.attempts == 0) &&
    (c.status == SENT ==> Everyone(audience, notified))
  }

  ghost predicate Inv(w: World) {
    Ascending(w.audience) && CampaignOk(w.audience, w.notified, w.campaign) &&
    (w.campaign.status == SCHEDULED ==> NobodyActive(w.workers) && w.notified == {}) &&
    forall p | p in w.workers :: ProcessOk(w.audience, w.notified, w.workers[p])
  }

  lemma MoreNotified(w: World, more: set<UserId>)
    requires Inv(w) && w.notified <= more && w.campaign.status != SCHEDULED
    ensures Inv(w.(notified := more))
  {
    hide NextBatch;
    forall p | p in w.workers
      ensures ProcessOk(w.audience, more, w.workers[p])
    {
      assert ProcessOk(w.audience, w.notified, w.workers[p]);
    }
  }

  lemma StepKeeps(w: World, act: Action)
    requires Inv(w)
    ensures Inv(Step(w, act)) && Step(w, act).audience == w.audience && w.notified <= Step(w, act).notified
  {
    hide NextBatch, Covered, Everyone, Ascending;
    match act
    case Fetch(p) =>
      assert ProcessOk(w.audience, w.notified, At(w, p));
      if At(w, p).Working? {
        BatchCovers(w.audience, w.notified, At(w, p).cursor);
        if NextBatch(w.audience, At(w, p).cursor) == [] { assert w.notified + Elements<UserId>([]) == w.notified; }
      }
    case Notify(p) =>
      assert ProcessOk(w.audience, w.notified, At(w, p));
      if At(w, p).Fetched? {
        assert Active(w.workers[p]);
        BatchCovers(w.audience, w.notified, At(w, p).cursor);
        MoreNotified(w, w.notified + Elements(At(w, p).batch));
      }
    case NotifyFails(p, some) =>
      if At(w, p).Fetched? { assert Active(w.workers[p]); MoreNotified(w, w.notified + some * Elements(At(w, p).batch)); }
    case Save(p) => assert ProcessOk(w.audience, w.notified, At(w, p));
    case Complete(p) => assert ProcessOk(w.audience, w.notified, At(w, p));
    case _ =>
  }

  lemma {:induction false} RunKeeps(w: World, trace: seq<Action>)
    requires Inv(w)
    ensures Inv(Run(w, trace)) && Run(w, trace).audience == w.audience && w.notified <= Run(w, trace).notified
  {
    hide Inv, Step;
    if trace != [] {
      RunKeeps(w, trace[..|trace| - 1]);
      StepKeeps(Run(w, trace[..|trace| - 1]), trace[|trace| - 1]);
    }
  }

  /**
   In every run, everyone up to the persisted cursor has been notified, even when a slow worker moves it back; a
   campaign that is SENT has notified its whole audience; and at most ten attempts are ever granted.
   */
  lemma CursorCoversAudience(audience: seq<UserId>, scheduledAt: Time, trace: seq<Action>)
    requires Ascending(audience)
    ensures var w := Run(Start(audience, scheduledAt), trace);
            (forall id | id in audience && !Past(w.campaign.cursor, id) :: id in w.notified) &&
            (w.campaign.status == SENT ==> forall id | id in audience :: id in w.notified) &&
            w.campaign.attempts <= MAX_ATTEMPTS
  {
    RunKeeps(Start(audience, scheduledAt), trace);
  }

  /** What a campaign that was SENT can still become: its dispatch is over, and only a stale cancellation can rename it. */
  ghost predicate DispatchOver(c: Campaign, c': Campaign) {
    (c'.status == SENT || c'.status == CANCELED) && c' == c.(status := c'.status)
  }

  lemma {:induction false} OverStaysOver(w: World, after: seq<Action>)
    requires w.campaign.status == SENT
    ensures DispatchOver(w.campaign, Run(w, after).campaign)
  {
    hide NextBatch;
    if after != [] { OverStaysOver(w, after[..|after| - 1]); }
  }

  /**
   Once a campaign was SENT its audience stays notified and its cursor, attempts and recipient count never change
   again; the status can only go back and forth between SENT and a stale cancellation.
   */
  lemma SentStaysTrue(audience: seq<UserId>, scheduledAt: Time, before: seq<Action>, after: seq<Action>)
    requires Ascending(audience) && Run(Start(audience, scheduledAt), before).campaign.status == SENT
    ensures var w := Run(Start(audience, scheduledAt), before);
            DispatchOver(w.campaign, Run(w, after).campaign) && forall id | id in audience :: id in Run(w, after).notified
  {
    RunKeeps(Start(audience, scheduledAt), before);
    RunKeeps(Run(Start(audience, scheduledAt), before), after);
    OverStaysOver(Run(Start(audience, scheduledAt), before), after);
  }

  // ----- When a cancellation holds

  lemma {:induction false} RunAfter(w: World, act: Action, rest: seq<Action>)
    ensures Run(w, [act] + rest) == Run(Step(w, act), rest)
  {
    hide Step;
    var trace := [act] + rest;
    if rest == [] {
      assert trace == [act] && trace[..0] == [];
      assert Run(w, []) == w;
    } else {
      RunAfter(w, act, rest[..|rest| - 1]);
      assert trace[..|trace| - 1] == [act] + rest[..|rest| - 1];
    }
  }

  /** What an active worker does next when nothing goes wrong. */
  function NextAction(p: WorkerId, s: Process): Action {
    match s
    case Claimed => ReadCampaign(p)
    case Working(_) => Fetch(p)
    case Fetched(_, _) => Notify(p)
    case Notified(_, _) => Save(p)
    case _ => Complete(p)
  }

  /** How many members of the audience may still be ahead of a worker. */
  function Ahead(audience: seq<UserId>, s: Process): nat {
    match s
    case Claimed => |audience| + 1
    case Working(cursor) => |Remaining(audience, cursor)|
    case Fetched(cursor, _) => |Remaining(audience, cursor)|
    case Notified(last, _) => |Remaining(audience, Some(last))|
    case _ => 0
  }

  function Stage(s: Process): nat {
    match s
    case Notified(_, _) => 3
    case Working(_) => 2
    case Fetched(_, _) => 1
    case _ => 0
  }

  lemma NextActionAdvances(w: World, p: WorkerId)
    requires Inv(w) && Active(At(w, p)) && !At(w, p).Finishing?
    ensures var s, s' := At(w, p), At(Step(w, NextAction(p, At(w, p))), p);
            Active(s') && (Ahead(w.audience, s') < Ahead(w.audience, s) ||
                           (Ahead(w.audience, s') == Ahead(w.audience, s) && Stage(s') < Stage(s)) || s'.Finishing?)
  {
    hide Covered, Everyone, Ascending, Remaining;
    assert ProcessOk(w.audience, w.notified, At(w, p));
    if At(w, p).Fetched? {
      var cursor, batch := At(w, p).cursor, At(w, p).batch;
      var last := batch[|batch| - 1];
      assert last in batch && last in Remaining(w.audience, cursor);
      CursorAdvances(w.audience, cursor, last);
    }
  }

  /** However a campaign stands, a worker that is still active can bring it to SENT on its own. */
  lemma {:induction false} ActiveWorkerFinishes(w: World, p: WorkerId) returns (rest: seq<Action>)
    requires Inv(w) && Active(At(w, p))
    ensures var w' := Run(w, rest);
            w'.campaign.status == SENT && At(w', p).Idle? && forall q | q != p :: At(w', q) == At(w, q)
    decreases if At(w, p).Finishing? then 0 else 1, Ahead(w.audience, At(w, p)), Stage(At(w, p))
  {
    hide Inv, Ahead, Stage, Run;
    var act := NextAction(p, At(w, p));
    assert forall q | q != p :: At(Step(w, act), q) == At(w, q) by { hide NextBatch, SaveCursor; }
    if At(w, p).Finishing? {
      rest := [];
    } else {
      NextActionAdvances(w, p);
      StepKeeps(w, act);
      rest := ActiveWorkerFinishes(Step(w, act), p);
    }
    RunAfter(w, act, rest);
    assert rest == [] ==> Run(Step(w, act), rest) == Step(w, act) by { RunNothing(Step(w, act)); }
    rest := [act] + rest;
  }

  lemma RunNothing(w: World)
    ensures Run(w, []) == w
  {
  }

  lemma {:induction false} CanceledStays(w: World, after: seq<Action>)
    requires w.campaign.status == CANCELED && NobodyActive(w.workers)
    ensures Run(w, after).campaign.status == CANCELED && NobodyActive(Run(w, after).workers) && Run(w, after).notified == w.notified
  {
    hide NextBatch;
    if after != [] { CanceledStays(w, after[..|after| - 1]); }
  }

  /** A cancellation that finds an active worker can still be followed by a complete dispatch. */
  lemma ActiveWorkerOverrules(w: World, p: WorkerId, q: WorkerId) returns (rest: seq<Action>)
    requires Inv(w) && At(w, p).Canceling? && q in w.workers && Active(w.workers[q])
    ensures var w' := Run(Step(w, CommitCancel(p)), rest); w'.campaign.status == SENT && Everyone(w.audience, w'.notified)
  {
    hide Run, Inv;
    var w' := Step(w, CommitCancel(p));
    StepKeeps(w, CommitCancel(p));
    rest := ActiveWorkerFinishes(w', q);
    RunKeeps(w', rest);
    SentMeansEveryone(Run(w', rest));
  }

  /** Nobody in the audience is notified after the cancellation who was not before. */
  ghost predicate NotifiesNobodyElse(w: World, p: WorkerId, after: seq<Action>) {
    forall id | id in w.audience && id in Run(Step(w, CommitCancel(p)), after).notified :: id in w.notified
  }

  /** Nobody in the audience is ever notified. */
  ghost predicate NotifiesNobody(w: World, p: WorkerId, after: seq<Action>) {
    forall id | id in w.audience :: id !in Run(Step(w, CommitCancel(p)), after).notified
  }

  /**
   What a cancellation does, in all continuations: the status stays CANCELED exactly when no worker is active at the
   moment it is written; nobody else is notified exactly when no worker is active or everybody has been notified; and
   the campaign is canceled before it is sent, that is, nobody in the audience is ever notified, exactly when, besides,
   nobody has been. The update has no guard on the status it read, so it does not know.
   */
  lemma CancellationHoldsIff(audience: seq<UserId>, scheduledAt: Time, trace: seq<Action>, p: WorkerId)
    requires Ascending(audience) && At(Run(Start(audience, scheduledAt), trace), p).Canceling?
    ensures var w := Run(Start(audience, scheduledAt), trace);
            (forall after :: Run(Step(w, CommitCancel(p)), after).campaign.status == CANCELED) <==> NobodyActive(w.workers)
    ensures var w := Run(Start(audience, scheduledAt), trace);
            (forall after :: NotifiesNobodyElse(w, p, after)) <==> NobodyActive(w.workers) || Everyone(audience, w.notified)
    ensures var w := Run(Start(audience, scheduledAt), trace);
            (forall after :: NotifiesNobody(w, p, after)) <==>
            audience == [] || (NobodyActive(w.workers) && forall id | id in audience :: id !in w.notified)
  {
    RunKeeps(Start(audience, scheduledAt), trace);
    var w := Run(Start(audience, scheduledAt), trace);
    assert w.audience == audience;
    assert Run(Step(w, CommitCancel(p)), []).notified == w.notified by { RunNothing(Step(w, CommitCancel(p))); }
    assert !(forall id | id in audience :: id !in w.notified) ==> !NotifiesNobody(w, p, []);
    hide Run, Inv;
    var w' := Step(w, CommitCancel(p));
    if NobodyActive(w.workers) {
      forall after
        ensures Run(w', after).campaign.status == CANCELED && Run(w', after).notified == w.notified
      {
        CanceledStays(w', after);
      }
    } else {
      var q :| q in w.workers && Active(w.workers[q]);
      var rest := ActiveWorkerOverrules(w, p, q);
      assert Run(w', rest).campaign.status != CANCELED;
      assert NotifiesNobodyElse(w, p, rest) ==> Everyone(audience, w.notified);
      assert audience != [] ==> !NotifiesNobody(w, p, rest) by { if audience != [] { assert audience[0] in audience; } }
    }
  }

  /** With the guard the update lacks, it would be before sending: while the status is SCHEDULED nobody ever is notified. */
  lemma ScheduledCancellationHolds(audience: seq<UserId>, scheduledAt: Time, trace: seq<Action>, p: WorkerId, after: seq<Action>)
    requires Ascending(audience)
    requires var w := Run(Start(audience, scheduledAt), trace); At(w, p).Canceling? && w.campaign.status == SCHEDULED
    ensures var w' := Run(Step(Run(Start(audience, scheduledAt), trace), CommitCancel(p)), after);
            w'.campaign.status == CANCELED && w'.notified == {}
  {
    RunKeeps(Start(audience, scheduledAt), trace);
    hide Run;
    CanceledStays(Step(Run(Start(audience, scheduledAt), trace), CommitCancel(p)), after);
  }

  /** The cancellation reads the status, then a worker claims the campaign. */
  lemma ReadBeforeClaim(audience: seq<UserId>, scheduledAt: Time) returns (trace: seq<Action>)
    ensures var w := Run(Start(audience, scheduledAt), trace);
            w.workers == map[1 := Canceling][0 := Claimed] && w.campaign.status == SENDING && w.notified == {} && w.audience == audience
  {
    var w := Start(audience, scheduledAt);
    hide Run;
    RunNothing(w);
    trace := RunOf(w, [], Tick(scheduledAt));
    trace := RunOf(w, trace, ReadToCancel(1));
    trace := RunOf(w, trace, TryClaim(0, scheduledAt));
  }

  /**
   For every audience there is a run in which a cancellation that was read before the claim overwrites a campaign in
   progress while nobody has been notified, and everybody is notified afterwards.
   */
  lemma CancelCanLose(audience: seq<UserId>, scheduledAt: Time) returns (trace: seq<Action>, rest: seq<Action>)
    requires Ascending(audience)
    ensures var w := Run(Start(audience, scheduledAt), trace);
            w.campaign.status == CANCELED && w.notified == {} && Run(w, rest).campaign.status == SENT &&
            forall id | id in audience :: id in Run(w, rest).notified
  {
    var w := Start(audience, scheduledAt);
    trace := ReadBeforeClaim(audience, scheduledAt);
    RunKeeps(w, []);
    RunNothing(w);
    hide Run, Inv;
    trace := RunOf(w, trace, CommitCancel(1));
    RunKeeps(w, trace);
    var canceled := Run(w, trace);
    rest := ActiveWorkerFinishes(canceled, 0);
    RunKeeps(canceled, rest);
    SentMeansEveryone(Run(canceled, rest));
  }

  /**
   For every audience there is a run in which a cancellation read in time is written when the campaign is SENT: it
   stays CANCELED for good, and everybody has been notified.
   */
  lemma CancelAfterSending(audience: seq<UserId>, scheduledAt: Time) returns (trace: seq<Action>)
    requires Ascending(audience)
    ensures var w := Run(Start(audience, scheduledAt), trace);
            w.campaign.status == CANCELED && Everyone(audience, w.notified) &&
            forall after :: Run(w, after).campaign.status == CANCELED
  {
    var w := Start(audience, scheduledAt);
    trace := ReadBeforeClaim(audience, scheduledAt);
    RunKeeps(w, []);
    RunNothing(w);
    hide Run, Inv;
    RunKeeps(w, trace);
    var claimed := Run(w, trace);
    var rest := ActiveWorkerFinishes(claimed, 0);
    RunKeeps(claimed, rest);
    SentMeansEveryone(Run(claimed, rest));
    RunJoins(w, trace, rest);
    trace := RunOf(w, trace + rest, CommitCancel(1));
    var canceled := Run(w, trace);
    assert NobodyActive(canceled.workers) by {
      forall q | q in canceled.workers
        ensures !Active(canceled.workers[q])
      {
        assert q != 1 ==> canceled.workers[q] == At(Run(claimed, rest), q);
      }
    }
    forall after
      ensures Run(canceled, after).campaign.status == CANCELED
    {
      CanceledStays(canceled, after);
    }
  }

  lemma {:induction false} RunJoins(w: World, a: seq<Action>, b: seq<Action>)
    ensures Run(w, a + b) == Run(Run(w, a), b)
  {
    hide Step;
    if b == [] {
      JoinEmpty(a);
    } else {
      RunJoins(w, a, b[..|b| - 1]);
      assert (a + b)[..|a + b| - 1] == a + b[..|b| - 1];
    }
  }

  lemma SentMeansEveryone(w: World)
    requires Inv(w) && w.campaign.status == SENT
    ensures forall id | id in w.audience :: id in w.notified
  {
  }

  lemma RunOf(w: World, trace: seq<Action>, act: Action) returns (longer: seq<Action>)
    ensures longer == trace + [act] && Run(w, longer) == Step(Run(w, trace), act)
  {
    longer := trace + [act];
    assert longer[..|trace|] == trace;
  }
}
