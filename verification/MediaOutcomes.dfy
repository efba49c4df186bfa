/** What each step of a media process comes to: when it takes effect, and what it does then. */
module MediaOutcomes {
  import opened Options
  import opened Sequences
  import opened MediaKeys
  import opened MediaRows
  import opened MediaEffects
  import opened MediaPublication
  import opened MediaInvariant
  import opened MediaSafety

  // ----- Previews

  /**
   The previews a worker has uploaded are published with the completion of its media, and stored with it, exactly when
   their attempt is still pending and has not expired; the attempt is its own, for this media and with these keys.
   */
  lemma UploadedPreviewsArePublished(trace: seq<Action>, p: ProcessId)
    requires At(Reached(trace), p).StagedUploaded?
    ensures var w := Reached(trace);
            var s, r, r' := At(w, p), w.rows, Step(w, Complete(p)).rows;
            CompletesMedia(r, r', w.clock, s.m, s.a, s.keys) &&
            (s.a in r.attempts ==> r.attempts[s.a].mediaId == s.m && r.attempts[s.a].keys == s.keys) &&
            (s.m in r.media && r.media[s.m].status == PROCESSING && r.media[s.m].claimedAt.None? ==>
               s.m in r'.media && r'.media[s.m].status == COMPLETED &&
               (r'.media[s.m].previewVariants == Some(s.keys) <==>
                s.a in r.attempts && r.attempts[s.a].status == PENDING && w.clock < r.attempts[s.a].expiresAt))
  {
    EveryRunKeeps(trace);
    var w := Reached(trace);
    hide Reached;
    OwnAttempt(w, p);
    CompletionStep(w, p);
    CompletionEffects(w.rows, w.clock, At(w, p).m, At(w, p).a, At(w, p).keys);
    hide Inv, Step, CompleteWithPreviews;
  }

  lemma OwnAttempt(w: World, p: ProcessId)
    requires Inv(w) && At(w, p).StagedUploaded?
    ensures var s := At(w, p); s.a in w.rows.attempts ==> w.rows.attempts[s.a].mediaId == s.m && w.rows.attempts[s.a].keys == s.keys
  {
    hide RowsOk, ObjectsOk, IdsOk, RegisterOk, LeasesDistinct;
    assert ProcessOk(w, At(w, p));
  }

  lemma CompletionStep(w: World, p: ProcessId)
    requires At(w, p).StagedUploaded?
    ensures var s := At(w, p); Step(w, Complete(p)).rows == CompleteWithPreviews(w.rows, w.clock, s.m, s.a, s.keys)
  {
    hide CompleteWithPreviews;
  }

  // ----- Displays

  /** A call for a media without an asset records an attempt and sends its PUT exactly when the media is open. */
  lemma CallRegisters(w: World, p: ProcessId, a: AttemptId)
    requires At(w, p).Reading? && FreshAttempt(w, a) && a !in w.rows.attempts
    ensures var s, w' := At(w, p), Step(w, Register(p, a));
            if s.asset.None? && s.m in w.rows.media && Open(w.rows.media[s.m], s.key) then
              RegistersDisplay(w.rows, w'.rows, w.clock, s.m, s.key, a) && a in w'.rows.attempts &&
              At(w', p) == Registered(s.m, s.key, a, s.lease) && DisplayKey(s.key, a) in w'.puts
            else w' == w
  {
    var s := At(w, p);
    DisplayEffects(w.rows, w.clock, s.m, s.key, a, Descriptor(DisplayKey(s.key, a), 0, 0), 0);
    hide ValidAttemptId, PublishDisplay, LeaseDisplay, FailDisplay, PublishesDisplay, LeasesDisplay, FailsDisplay;
  }

  /**
   An uploaded display is published, and its descriptor handed to the caller, exactly when its attempt is pending and
   has not expired and its open media has no asset.
   */
  lemma CallPublishes(w: World, p: ProcessId)
    requires At(w, p).Uploaded?
    ensures var s, w' := At(w, p), Step(w, Publish(p));
            PublishesDisplay(w.rows, w'.rows, w.clock, s.m, s.key, s.a, s.d) &&
            (w'.rows != w.rows ==> (s.m, s.d) in w'.results && At(w', p) == if s.lease.None? then Displayed(s.m, s.key) else Idle) &&
            (w'.rows == w.rows ==> w'.results == w.results && At(w', p) == Lost(s.m, s.key, s.lease))
  {
    var s := At(w, p);
    DisplayEffects(w.rows, w.clock, s.m, s.key, s.a, s.d, 0);
    hide RegisterDisplay, LeaseDisplay, FailDisplay, RegistersDisplay, LeasesDisplay, FailsDisplay;
    if CanPublishDisplay(w.rows, w.clock, s.m, s.key, s.a) {
      assert Step(w, Publish(p)).rows.attempts[s.a].status == PUBLISHED;
    }
  }

  /** A caller that lost gets the asset that is there. */
  lemma LoserAdopts(w: World, p: ProcessId)
    requires At(w, p).Lost?
    ensures var s, w' := At(w, p), Step(w, AdoptWinner(p));
            if s.m in w.rows.media && w.rows.media[s.m].claimedAt.None? && w.rows.media[s.m].displayAsset.Some? &&
               (w.rows.media[s.m].status == PROCESSING || w.rows.media[s.m].status == COMPLETED)
            then w'.rows == w.rows && (s.m, w.rows.media[s.m].displayAsset.value) in w'.results
            else w' == w
  {
  }

  // ----- The historical worker

  lemma WorkerSelects(w: World, p: ProcessId, m: MediaId)
    ensures var w' := Step(w, ReadBacklog(p, m));
            if m in w.rows.media && w.rows.media[m].status == COMPLETED && w.rows.media[m].claimedAt.None? &&
               w.rows.media[m].displayAsset.None? && w.rows.media[m].displayAttempts < 3
            then At(w', p) == Backlog(m, w.rows.media[m].key, w.rows.media[m].displayAttempts)
            else w' == w
  {
  }

  lemma WorkerLeases(w: World, p: ProcessId)
    requires At(w, p).Backlog?
    ensures var s, w' := At(w, p), Step(w, Lease(p));
            LeasesDisplay(w.rows, w'.rows, w.clock, s.m, s.seen) &&
            At(w', p) == if w'.rows == w.rows then Idle else Reading(s.m, s.key, None, Some(s.seen + 1))
  {
    var s := At(w, p);
    DisplayEffects(w.rows, w.clock, s.m, s.key, "", Descriptor(SourceKey(""), 0, 0), s.seen);
    LeaseStep(w, p);
    LeaseChanges(w.rows, w.clock, s.m, s.seen);
    hide *;
  }

  lemma LeaseStep(w: World, p: ProcessId)
    requires At(w, p).Backlog?
    ensures var s, w' := At(w, p), Step(w, Lease(p));
            w'.rows == LeaseDisplay(w.rows, w.clock, s.m, s.seen) &&
            At(w', p) == if CanLease(w.rows, w.clock, s.m, s.seen) then Reading(s.m, s.key, None, Some(s.seen + 1)) else Idle
  {
    hide CanLease;
  }

  lemma LeaseChanges(r: Rows, now: Time, m: MediaId, seen: nat)
    ensures LeaseDisplay(r, now, m, seen) == r <==> !CanLease(r, now, m, seen)
  {
    if CanLease(r, now, m, seen) { assert LeaseDisplay(r, now, m, seen).media[m].displayAttempts == seen + 1; }
  }

  lemma WorkerFails(w: World, p: ProcessId)
    requires LeaseOf(At(w, p)).Some?
    ensures FailsDisplay(w.rows, Step(w, Fail(p)).rows, MediaOf(At(w, p)), LeaseOf(At(w, p)).value)
  {
    DisplayEffects(w.rows, w.clock, MediaOf(At(w, p)), "", "", Descriptor(SourceKey(""), 0, 0), LeaseOf(At(w, p)).value);
    hide RegisterDisplay, PublishDisplay, FailDisplay, LeaseDisplay, RegistersDisplay, PublishesDisplay, FailsDisplay, LeasesDisplay;
  }

  // ----- The cleaner

  /** What it selects, with the state it read. */
  lemma CleanerSelects(w: World, p: ProcessId, a: AttemptId)
    ensures var w' := Step(w, SelectForCleanup(p, a));
            if Selectable(w.rows, a, w.clock) then
              var t := w.rows.attempts[a]; At(w', p) == Selected(a, t.keys, t.status, t.nextCleanupAt, t.cleanupPasses)
            else w' == w
  {
    CleanupEffects(w.rows, w.clock, a, PENDING, 0, 0, 0, true);
    hide Selectable, DueForCleanup, KeysAllowed, LeaseCleanup, FinishCleanup;
  }

  /** It leases what is still as it was read, for ten minutes, and only then sends the DELETEs. */
  lemma CleanerLeases(w: World, p: ProcessId)
    requires At(w, p).Selected?
    ensures var s, w' := At(w, p), Step(w, ClaimCleanup(p));
            LeasesCleanup(w.rows, w'.rows, w.clock, s.a, s.status, s.due, w.clock + 600_000) &&
            if s.a in w.rows.attempts && w.rows.attempts[s.a].status == s.status && w.rows.attempts[s.a].nextCleanupAt == s.due &&
               w.rows.attempts[s.a].expiresAt <= w.clock
            then At(w', p) == Removing(s.a, s.keys, w.clock + 600_000, s.passes) && forall k | k in s.keys :: k in w'.deletes
            else At(w', p) == Idle && w'.deletes == w.deletes
  {
    var s := At(w, p);
    CleanupEffects(w.rows, w.clock, s.a, s.status, s.due, w.clock + 600_000, 0, true);
    hide Selectable, DueForCleanup, KeysAllowed, FinishCleanup, LeaseCleanup, LeasesCleanup;
  }

  /** It ends a pass as removed or as failed. */
  lemma CleanerEnds(w: World, p: ProcessId)
    requires At(w, p).Removing? || At(w, p).Removed?
    ensures var s := At(w, p);
            FinishesCleanup(w.rows, Step(w, EndCleanup(p)).rows, w.clock, s.a, s.leaseUntil, s.passes, s.Removed?)
  {
    var s := At(w, p);
    CleanupEffects(w.rows, w.clock, s.a, PENDING, 0, s.leaseUntil, s.passes, s.Removed?);
    EndStep(w, p);
    hide *;
  }

  lemma EndStep(w: World, p: ProcessId)
    requires At(w, p).Removing? || At(w, p).Removed?
    ensures var s := At(w, p);
            Step(w, EndCleanup(p)).rows == FinishCleanup(w.rows, w.clock, s.a, s.leaseUntil, s.passes, s.Removed?)
  {
    hide FinishCleanup;
  }

  /** A removed pass leaves none of the objects. */
  lemma CleanerRemoves(w: World, p: ProcessId)
    requires At(w, p).Removing?
    ensures var s, w' := At(w, p), Step(w, DeletesLand(p));
            At(w', p) == Removed(s.a, s.leaseUntil, s.passes) && w'.rows == w.rows && forall k | k in s.keys :: k !in w'.objects
  {
  }

  // ----- The worker's first read, and the reclaimer

  /** A worker takes up an upload that is in processing and unclaimed, with the asset it may already have. */
  lemma WorkerReads(w: World, p: ProcessId, m: MediaId)
    ensures var w' := Step(w, ReadMedia(p, m));
            if m in w.rows.media && w.rows.media[m].status == PROCESSING && w.rows.media[m].claimedAt.None?
            then At(w', p) == Reading(m, w.rows.media[m].key, w.rows.media[m].displayAsset, None) else w' == w
  {
  }

  /** It records the exact keys of its previews before it sends them. */
  lemma WorkerStages(w: World, p: ProcessId, a: AttemptId, edges: seq<Edge>, deadline: Time)
    requires At(w, p).Displayed? && At(w, p).m in w.rows.media && FreshAttempt(w, a) && a !in w.rows.attempts && edges != []
    ensures var s, w' := At(w, p), Step(w, Stage(p, a, edges, deadline));
            w'.rows.media == w.rows.media && OtherAttemptsSame(w.rows, w'.rows, a) && a in w'.rows.attempts &&
            var t := w'.rows.attempts[a];
            t == Attempt(s.m, t.keys, PENDING, deadline, deadline + 30_000, 0) && |t.keys| == |edges| &&
            (forall i | 0 <= i < |edges| :: t.keys[i] == PreviewKey(s.key, a, edges[i]) && t.keys[i] in w'.puts) &&
            At(w', p) == Staged(s.m, a, t.keys)
  {
    hide ValidAttemptId;
  }

  /** The reclaimer claims with the clock it computed its guard with. */
  lemma ReclaimerClaims(w: World, m: MediaId, seenNow: Time, eligible: bool)
    requires seenNow <= w.clock
    ensures ClaimsDeletion(w.rows, Step(w, Claim(m, seenNow, eligible)).rows, w.clock, seenNow, m, eligible)
  {
    ClaimEffect(w.rows, w.clock, seenNow, m, eligible);
    hide ClaimDeletion, ClaimsDeletion, DeletionAllowed;
  }

  /** It deletes everything a claimed media owns, then its rows. */
  lemma ReclaimerDeletes(w: World, m: MediaId)
    ensures var w' := Step(w, DeleteObjects(m));
            if m in w.rows.media && w.rows.media[m].claimedAt.Some? then
              SourceKey(w.rows.media[m].key) in w'.deletes &&
              forall a, k | a in w.rows.attempts && w.rows.attempts[a].mediaId == m && k in w.rows.attempts[a].keys :: k in w'.deletes
            else w' == w
    ensures var r' := Step(w, DeleteRow(m)).rows;
            if m in w.rows.media && w.rows.media[m].claimedAt.Some? then
              m !in r'.media && (forall n | n in w.rows.media && n != m :: n in r'.media) &&
              forall a | a in w.rows.attempts :: a in r'.attempts <==> w.rows.attempts[a].mediaId != m
            else r' == w.rows
  {
  }
}
