/** The media and attempt tables as the publishers, the cleaner and the reclaimer change them in place. */
module MediaStore {
  import opened Options
  import opened MediaKeys
  import opened R = MediaRows
  import opened MediaEffects

  /** How a transaction ends, seen from the process that ran it. */
  datatype TxOutcome = Committed | CommittedUnknown | RolledBack

  class MediaDatabase {
    var media: map<MediaId, Media>
    var attempts: map<AttemptId, Attempt>

    function View(): Rows
      reads this
    {
      Rows(media, attempts)
    }

    constructor ()
      ensures View() == Rows(map[], map[])
    {
      media, attempts := map[], map[];
    }

    method RegisterDisplay(now: Time, m: MediaId, key: string, a: AttemptId) returns (ok: bool)
      requires a !in attempts
      modifies this
      ensures View() == R.RegisterDisplay(old(View()), now, m, key, a)
      ensures RegistersDisplay(old(View()), View(), now, m, key, a)
      ensures ok <==> AcceptsDisplay(old(View()), m, key)
    {
      var locked := m in media && media[m].key == key && media[m].claimedAt.None? &&
                    media[m].status in {PROCESSING, COMPLETED};
      if !locked { return false; }
      media := media[m := media[m].(key := key)];
      var expiresAt := now + DISPLAY_UPLOAD_MS;
      attempts := attempts[a := Attempt(m, [DisplayKey(key, a)], PENDING, expiresAt, expiresAt + CLEANUP_SLACK_MS, 0)];
      assert media == old(media);
      return true;
    }

    method PublishDisplay(now: Time, m: MediaId, key: string, a: AttemptId, d: Descriptor) returns (published: bool)
      modifies this
      ensures View() == R.PublishDisplay(old(View()), now, m, key, a, d)
      ensures PublishesDisplay(old(View()), View(), now, m, key, a, d)
      ensures published <==> CanPublishDisplay(old(View()), now, m, key, a)
    {
      if !(a in attempts && attempts[a].status == PENDING && attempts[a].expiresAt > now) { return false; }
      attempts := attempts[a := attempts[a].(status := PUBLISHED)];
      var updated := m in media && media[m].key == key && media[m].status in {PROCESSING, COMPLETED} &&
                     media[m].claimedAt.None? && media[m].displayAsset.None?;
      if updated {
        media := media[m := media[m].(displayAsset := Some(d), displayStatus := DisplayReady, displayStartedAt := None)];
      } else {
        attempts := attempts[a := attempts[a].(status := PENDING)];
        assert attempts == old(attempts);
      }
      return updated;
    }

    method LeaseDisplay(now: Time, m: MediaId, seen: nat) returns (claimed: bool)
      modifies this
      ensures View() == R.LeaseDisplay(old(View()), now, m, seen)
      ensures LeasesDisplay(old(View()), View(), now, m, seen)
      ensures claimed <==> CanLease(old(View()), now, m, seen)
    {
      claimed := m in media && media[m].status == COMPLETED && media[m].claimedAt.None? &&
                 media[m].displayAsset.None? && media[m].displayAttempts == seen && LeaseFree(media[m], now);
      if claimed {
        var row := media[m].(displayStatus := DisplayProcessing, displayStartedAt := Some(now));
        media := media[m := row.(displayAttempts := row.displayAttempts + 1)];
      }
    }

    method FailDisplay(m: MediaId, lease: nat)
      modifies this
      ensures View() == R.FailDisplay(old(View()), m, lease)
      ensures FailsDisplay(old(View()), View(), m, lease)
    {
      if m in media && media[m].displayStatus == DisplayProcessing && media[m].displayAttempts == lease {
        media := media[m := media[m].(displayStatus := DisplayFailed, displayStartedAt := None)];
      }
    }

    method CompleteBase(m: MediaId) returns (count: nat)
      modifies this
      ensures View() == R.CompleteBase(old(View()), m)
      ensures CompletesPlainly(old(View()), View(), m)
      ensures count == if CanComplete(old(View()), m) then 1 else 0
    {
      count := 0;
      if m in media && media[m].status == PROCESSING && media[m].claimedAt.None? {
        media := media[m := media[m].(status := COMPLETED, previewVariants := None)];
        count := 1;
      }
    }

    /**
     Completion of a processed media. `attempt` is absent when no preview was staged or its deadline is too close.
     When the transaction fails, or commits without the caller learning it, the base completion runs as a fallback:
     after a commit it changes nothing, so published previews stay.
     */
    method CompleteMedia(now: Time, m: MediaId, attempt: Option<AttemptId>, keys: seq<ObjectKey>, outcome: TxOutcome)
      returns (count: nat)
      modifies this
      ensures attempt.None? || outcome == RolledBack ==> View() == R.CompleteBase(old(View()), m)
      ensures attempt.Some? && outcome != RolledBack ==>
                View() == R.CompleteWithPreviews(old(View()), now, m, attempt.value, keys)
      ensures if attempt.Some? && outcome != RolledBack then CompletesMedia(old(View()), View(), now, m, attempt.value, keys)
              else CompletesPlainly(old(View()), View(), m)
      ensures count == 1 <==> CanComplete(old(View()), m) && (attempt.None? || outcome != CommittedUnknown)
    {
      if attempt.None? || outcome == RolledBack {
        count := CompleteBase(m);
        return;
      }
      var a := attempt.value;
      var published := a in attempts && attempts[a].mediaId == m && attempts[a].status == PENDING && attempts[a].expiresAt > now;
      if published {
        attempts := attempts[a := attempts[a].(status := PUBLISHED)];
      }
      count := 0;
      if m in media && media[m].status == PROCESSING && media[m].claimedAt.None? {
        media := media[m := media[m].(status := COMPLETED, previewVariants := if published then Some(keys) else None)];
        count := 1;
      }
      if count != 1 && published {
        attempts := attempts[a := attempts[a].(status := PENDING)];
        assert attempts == old(attempts);
      }
      if outcome == CommittedUnknown {
        count := CompleteBase(m);
      }
    }

    method LeaseCleanup(now: Time, a: AttemptId, status: AttemptStatus, due: Time, leaseUntil: Time) returns (count: nat)
      modifies this
      ensures View() == R.LeaseCleanup(old(View()), now, a, status, due, leaseUntil)
      ensures LeasesCleanup(old(View()), View(), now, a, status, due, leaseUntil)
      ensures count == if CanLeaseCleanup(old(View()), now, a, status, due) then 1 else 0
    {
      count := 0;
      if a in attempts && attempts[a].status == status && attempts[a].nextCleanupAt == due && attempts[a].expiresAt <= now {
        attempts := attempts[a := attempts[a].(status := CLEANING, nextCleanupAt := leaseUntil)];
        count := 1;
      }
    }

    method FinishCleanup(now: Time, a: AttemptId, leaseUntil: Time, passes: nat, success: bool)
      modifies this
      ensures View() == R.FinishCleanup(old(View()), now, a, leaseUntil, passes, success)
      ensures FinishesCleanup(old(View()), View(), now, a, leaseUntil, passes, success)
    {
      var nextDelay := CleanupDelay(success, passes);
      if a in attempts && attempts[a].status == CLEANING && attempts[a].nextCleanupAt == leaseUntil {
        var row := attempts[a].(nextCleanupAt := now + nextDelay);
        if success { row := row.(cleanupPasses := row.cleanupPasses + 1); }
        attempts := attempts[a := row];
      }
    }

    /** The cleaner's loop over the rows it selected; none of them was PUBLISHED when it was read. */
    method CleanupBatch(now: Time, batch: seq<Snapshot>, removed: seq<bool>) returns (cleaned: nat)
      requires |removed| == |batch|
      requires forall i | 0 <= i < |batch| :: batch[i].status != PUBLISHED
      modifies this
      ensures View() == CleanBatch(old(View()), now, batch, removed)
      ensures media == old(media) && attempts.Keys == old(attempts).Keys
      ensures forall a | a in attempts && old(attempts)[a].status == PUBLISHED :: attempts[a] == old(attempts)[a]
      ensures forall a | a in attempts && attempts[a].status == PUBLISHED :: old(attempts)[a].status == PUBLISHED
      ensures cleaned <= |batch|
    {
      cleaned := 0;
      for i := 0 to |batch|
        invariant View() == CleanBatch(old(View()), now, batch[..i], removed[..i])
        invariant media == old(media) && attempts.Keys == old(attempts).Keys
        invariant forall a | a in attempts && old(attempts)[a].status == PUBLISHED :: attempts[a] == old(attempts)[a]
        invariant forall a | a in attempts && attempts[a].status == PUBLISHED :: old(attempts)[a].status == PUBLISHED
        invariant cleaned <= i
      {
        assert batch[..i + 1][..i] == batch[..i] && removed[..i + 1][..i] == removed[..i];
        var row := batch[i];
        if !KeysAllowed(row.key, row.a, row.keys) { continue; }
        var leaseUntil := now + RETRY_MS;
        var count := LeaseCleanup(now, row.a, row.status, row.due, leaseUntil);
        if count != 1 { continue; }
        if removed[i] { cleaned := cleaned + 1; }
        FinishCleanup(now, row.a, leaseUntil, row.passes, removed[i]);
      }
      assert batch[..|batch|] == batch && removed[..|batch|] == removed;
    }

    method ClaimDeletion(now: Time, seenNow: Time, m: MediaId, eligible: bool) returns (claimed: bool)
      modifies this
      ensures View() == R.ClaimDeletion(old(View()), now, seenNow, m, eligible)
      ensures ClaimsDeletion(old(View()), View(), now, seenNow, m, eligible)
      ensures claimed <==> m in old(View()).media && eligible && DeletionAllowed(old(View()), m, seenNow)
    {
      claimed := m in media && eligible && DeletionAllowed(View(), m, seenNow);
      if claimed && media[m].claimedAt.None? {
        media := media[m := media[m].(claimedAt := Some(now))];
      }
      ClaimEffect(old(View()), now, seenNow, m, eligible);
    }
  }
}
