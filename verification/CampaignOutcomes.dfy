/** What each step of a dispatch does in a run, on the fields of the campaign, and when nobody can have been notified yet. */
module CampaignOutcomes {
  import opened Options
  import opened Sequences
  import opened CampaignDispatch
  import opened CampaignProtocol

  /** Nothing has started before its time. */
  ghost predicate OnTime(w: World, scheduledAt: Time) {
    w.campaign.scheduledAt == scheduledAt &&
    (w.clock < scheduledAt ==>
       (w.campaign.status == SCHEDULED || w.campaign.status == CANCELED) && w.campaign.attempts == 0 &&
       w.notified == {} && NobodyActive(w.workers))
  }

  lemma StepOnTime(w: World, act: Action, scheduledAt: Time)
    requires OnTime(w, scheduledAt)
    ensures OnTime(Step(w, act), scheduledAt)
  {
    hide NextBatch, Elements;
    forall p | w.clock < scheduledAt
      ensures !Active(At(w, p))
    {
    }
  }

  lemma {:induction false} RunOnTime(w: World, trace: seq<Action>, scheduledAt: Time)
    requires OnTime(w, scheduledAt)
    ensures OnTime(Run(w, trace), scheduledAt)
  {
    hide OnTime, Step;
    if trace != [] {
      RunOnTime(w, trace[..|trace| - 1], scheduledAt);
      StepOnTime(Run(w, trace[..|trace| - 1]), trace[|trace| - 1], scheduledAt);
    }
  }

  /** In no run is anybody notified, or an attempt made, before the scheduled time. */
  lemma NobodyBeforeTime(audience: seq<UserId>, scheduledAt: Time, trace: seq<Action>)
    ensures var w := Run(Start(audience, scheduledAt), trace);
            w.campaign.scheduledAt == scheduledAt &&
            (w.notified != {} || w.campaign.attempts > 0 || w.campaign.status == SENDING || w.campaign.status == SENT ==>
               w.clock >= scheduledAt)
  {
    RunOnTime(Start(audience, scheduledAt), trace, scheduledAt);
  }

  /** A worker gets the campaign exactly when it is due or was left behind, and makes it one attempt further. */
  lemma ClaimIff(w: World, p: WorkerId, now: Time)
    requires At(w, p).Idle? && now <= w.clock
    ensures var w' := Step(w, TryClaim(p, now));
            if MayClaim(w.campaign, now) then At(w', p).Claimed? && Attempted(w.campaign, w'.campaign, now) && w'.notified == w.notified
            else w' == w
  {
  }

  /** The batches of a run are the next members past the cursor; without any the worker is done. */
  lemma FetchTakesNext(audience: seq<UserId>, scheduledAt: Time, trace: seq<Action>, p: WorkerId)
    requires Ascending(audience)
    ensures var w := Run(Start(audience, scheduledAt), trace);
            var w' := Step(w, Fetch(p));
            At(w, p).Working? ==>
              w'.campaign == w.campaign && w'.notified == w.notified &&
              match At(w', p)
              case Fetched(cursor, batch) => cursor == At(w, p).cursor && |batch| > 0 && IsNextBatch(audience, cursor, batch)
              case Finishing => IsNextBatch(audience, At(w, p).cursor, [])
              case _ => false
  {
    var w := Run(Start(audience, scheduledAt), trace);
    RunKeeps(Start(audience, scheduledAt), trace);
    hide NextBatch, IsNextBatch, Inv, Run;
    if At(w, p).Working? { BatchIsNext(audience, At(w, p).cursor); }
  }

  /** A notified batch reaches its members and nobody else; then the cursor moves to its last member. */
  lemma BatchIsSent(w: World, p: WorkerId)
    requires At(w, p).Fetched? && |At(w, p).batch| > 0
    ensures var batch := At(w, p).batch;
            var w' := Step(w, Notify(p));
            (forall id :: id in w'.notified <==> id in w.notified || id in batch) && w'.campaign == w.campaign &&
            At(w', p) == Notified(batch[|batch| - 1], |batch|) &&
            Saved(w'.campaign, Step(w', Save(p)).campaign, w'.clock, batch[|batch| - 1], |batch|) &&
            Step(w', Save(p)).notified == w'.notified &&
            At(Step(w', Save(p)), p) == if |batch| < 500 then Finishing else Working(Some(batch[|batch| - 1]))
  {
  }

  /** Completing makes the campaign SENT; failing makes it FAILED only after its tenth attempt. */
  lemma DispatchEnds(w: World, p: WorkerId)
    ensures At(w, p).Finishing? ==> Renamed(w.campaign, Step(w, Complete(p)).campaign, SENT)
    ensures !At(w, p).Canceling? ==>
              var c' := Step(w, Fail(p)).campaign;
              if w.campaign.status == SENDING && w.campaign.attempts >= 10 then Renamed(w.campaign, c', FAILED) else c' == w.campaign
  {
  }

  /** A cancellation is accepted exactly while the campaign is SCHEDULED, and written whatever it is by then. */
  lemma CancelIff(w: World, p: WorkerId)
    requires At(w, p).Idle?
    ensures At(Step(w, ReadToCancel(p)), p).Canceling? <==> w.campaign.status == SCHEDULED
    ensures Step(w, ReadToCancel(p)).campaign == w.campaign
    ensures forall v: World :: At(v, p).Canceling? ==> Renamed(v.campaign, Step(v, CommitCancel(p)).campaign, CANCELED)
  {
  }
}
