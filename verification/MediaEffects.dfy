/**
 What each media transaction does, told by the fields of the rows before and after it. The transactions themselves are
 defined elsewhere; here is what a caller may rely on, for every input.
 */
module MediaEffects {
  import opened Options
  import opened MediaKeys
  import opened MediaRows

  ghost predicate OtherMediaSame(r: Rows, r': Rows, m: MediaId) {
    r'.media.Keys == r.media.Keys && forall n | n in r.media && n != m :: r'.media[n] == r.media[n]
  }

  ghost predicate OtherAttemptsSame(r: Rows, r': Rows, a: AttemptId) {
    forall b | b != a :: (b in r'.attempts <==> b in r.attempts) && (b in r.attempts ==> r'.attempts[b] == r.attempts[b])
  }

  ghost predicate Open(x: Media, key: string) {
    x.key == key && x.claimedAt.None? && (x.status == PROCESSING || x.status == COMPLETED)
  }

  /** A display attempt is recorded for an open media with this key, to run half a minute and be cleaned half a minute later. */
  ghost predicate RegistersDisplay(r: Rows, r': Rows, now: Time, m: MediaId, key: string, a: AttemptId) {
    r'.media == r.media && OtherAttemptsSame(r, r', a) &&
    (a in r'.attempts <==> m in r.media && Open(r.media[m], key)) &&
    (a in r'.attempts ==>
       var t := r'.attempts[a];
       t.mediaId == m && t.keys == [DisplayKey(key, a)] && t.status == PENDING && t.cleanupPasses == 0 &&
       t.expiresAt == now + 30_000 && t.nextCleanupAt == now + 60_000)
  }

  /** A pending attempt that has not expired becomes the asset of its open media, if that has none; or nothing changes. */
  ghost predicate PublishesDisplay(r: Rows, r': Rows, now: Time, m: MediaId, key: string, a: AttemptId, d: Descriptor) {
    if a in r.attempts && r.attempts[a].status == PENDING && now < r.attempts[a].expiresAt &&
       m in r.media && Open(r.media[m], key) && r.media[m].displayAsset.None?
    then
      OtherMediaSame(r, r', m) && OtherAttemptsSame(r, r', a) && a in r'.attempts && r'.attempts[a].status == PUBLISHED &&
      r'.attempts[a] == r.attempts[a].(status := PUBLISHED) &&
      r'.media[m].displayAsset == Some(d) && r'.media[m].displayStatus == DisplayReady && r'.media[m].displayStartedAt.None? &&
      r'.media[m] == r.media[m].(displayAsset := Some(d), displayStatus := DisplayReady, displayStartedAt := None)
    else r' == r
  }

  /** A completed, unclaimed media without an asset is leased when the count is the one read and no lease is five minutes young. */
  ghost predicate LeasesDisplay(r: Rows, r': Rows, now: Time, m: MediaId, seen: nat) {
    r'.attempts == r.attempts &&
    if m in r.media && r.media[m].status == COMPLETED && r.media[m].claimedAt.None? && r.media[m].displayAsset.None? &&
       r.media[m].displayAttempts == seen &&
       (r.media[m].displayStatus == NoDisplay || r.media[m].displayStatus == DisplayFailed ||
        (r.media[m].displayStatus == DisplayProcessing && r.media[m].displayStartedAt.Some? &&
         r.media[m].displayStartedAt.value + 300_000 < now))
    then
      OtherMediaSame(r, r', m) &&
      r'.media[m] == r.media[m].(displayStatus := DisplayProcessing, displayStartedAt := Some(now), displayAttempts := seen + 1)
    else r'.media == r.media
  }

  /** A failure is written while the lease with this number runs, and changes nothing otherwise. */
  ghost predicate FailsDisplay(r: Rows, r': Rows, m: MediaId, lease: nat) {
    r'.attempts == r.attempts &&
    if m in r.media && r.media[m].displayStatus == DisplayProcessing && r.media[m].displayAttempts == lease
    then OtherMediaSame(r, r', m) && r'.media[m] == r.media[m].(displayStatus := DisplayFailed, displayStartedAt := None)
    else r'.media == r.media
  }

  /**
   A media in processing and unclaimed is completed. Its previews are stored, and their attempt is published, exactly
   when that attempt is pending for this media and has not expired; otherwise it has none and the attempt stays as it is.
   */
  ghost predicate CompletesMedia(r: Rows, r': Rows, now: Time, m: MediaId, a: AttemptId, keys: seq<ObjectKey>) {
    if m in r.media && r.media[m].status == PROCESSING && r.media[m].claimedAt.None? then
      OtherMediaSame(r, r', m) && OtherAttemptsSame(r, r', a) && (a in r'.attempts <==> a in r.attempts) &&
      r'.media[m].status == COMPLETED &&
      r'.media[m] == r.media[m].(status := COMPLETED, previewVariants := r'.media[m].previewVariants) &&
      if a in r.attempts && r.attempts[a].status == PENDING && r.attempts[a].mediaId == m && now < r.attempts[a].expiresAt then
        r'.media[m].previewVariants == Some(keys) && r'.attempts[a].status == PUBLISHED &&
        r'.attempts[a] == r.attempts[a].(status := PUBLISHED)
      else r'.media[m].previewVariants.None? && r'.attempts == r.attempts
    else r' == r
  }

  /** The same without previews. */
  ghost predicate CompletesPlainly(r: Rows, r': Rows, m: MediaId) {
    r'.attempts == r.attempts &&
    if m in r.media && r.media[m].status == PROCESSING && r.media[m].claimedAt.None?
    then OtherMediaSame(r, r', m) && r'.media[m] == r.media[m].(status := COMPLETED, previewVariants := None)
    else r'.media == r.media
  }

  /** The attempt moves to CLEANING until `leaseUntil` when it is as it was read and has expired. */
  ghost predicate LeasesCleanup(r: Rows, r': Rows, now: Time, a: AttemptId, status: AttemptStatus, due: Time, leaseUntil: Time) {
    r'.media == r.media &&
    if a in r.attempts && r.attempts[a].status == status && r.attempts[a].nextCleanupAt == due && r.attempts[a].expiresAt <= now
    then
      OtherAttemptsSame(r, r', a) && a in r'.attempts &&
      r'.attempts[a] == r.attempts[a].(status := CLEANING, nextCleanupAt := leaseUntil)
    else r'.attempts == r.attempts
  }

  /** After a pass the next one is due in one, two, four, then seven days; after a failure in ten minutes. */
  ghost predicate FinishesCleanup(r: Rows, r': Rows, now: Time, a: AttemptId, leaseUntil: Time, passes: nat, success: bool) {
    r'.media == r.media &&
    if a in r.attempts && r.attempts[a].status == CLEANING && r.attempts[a].nextCleanupAt == leaseUntil then
      var next := if !success then 600_000 else if passes == 0 then 86_400_000 else if passes == 1 then 172_800_000
        else if passes == 2 then 345_600_000 else 604_800_000;
      OtherAttemptsSame(r, r', a) && a in r'.attempts &&
      r'.attempts[a] == r.attempts[a].(nextCleanupAt := now + next,
                                       cleanupPasses := r.attempts[a].cleanupPasses + if success then 1 else 0)
    else r'.attempts == r.attempts
  }

  /**
   An eligible media without a lease of the last five minutes is claimed, once, when every unpublished attempt has been
   removed completely at least once and expired at least seven days before.
   */
  ghost predicate ClaimsDeletion(r: Rows, r': Rows, now: Time, seenNow: Time, m: MediaId, eligible: bool) {
    r'.attempts == r.attempts &&
    if eligible && m in r.media && r.media[m].claimedAt.None? &&
       !(r.media[m].displayStatus == DisplayProcessing && r.media[m].displayStartedAt.Some? &&
         seenNow <= r.media[m].displayStartedAt.value + 300_000) &&
       forall a | a in r.attempts && r.attempts[a].mediaId == m && r.attempts[a].status != PUBLISHED ::
         r.attempts[a].cleanupPasses >= 1 && r.attempts[a].expiresAt + 604_800_000 <= seenNow
    then OtherMediaSame(r, r', m) && r'.media[m] == r.media[m].(claimedAt := Some(now))
    else r'.media == r.media
  }

  /** What the cleaner selects: an unpublished attempt, due and expired, of a finished media. */
  ghost predicate Selectable(r: Rows, a: AttemptId, now: Time) {
    a in r.attempts &&
    var t := r.attempts[a];
    t.status != PUBLISHED && t.nextCleanupAt <= now && t.expiresAt <= now && t.mediaId in r.media &&
    (r.media[t.mediaId].status == COMPLETED || r.media[t.mediaId].status == FAILED) &&
    t.keys != [] &&
    forall k | k in t.keys ::
      k == DisplayKey(r.media[t.mediaId].key, a) || k == PreviewKey(r.media[t.mediaId].key, a, Edge480) ||
      k == PreviewKey(r.media[t.mediaId].key, a, Edge800)
  }

  // ----- The transactions do that

  lemma DisplayEffects(r: Rows, now: Time, m: MediaId, key: string, a: AttemptId, d: Descriptor, seen: nat)
    ensures a !in r.attempts ==> RegistersDisplay(r, RegisterDisplay(r, now, m, key, a), now, m, key, a)
    ensures PublishesDisplay(r, PublishDisplay(r, now, m, key, a, d), now, m, key, a, d)
    ensures LeasesDisplay(r, LeaseDisplay(r, now, m, seen), now, m, seen)
    ensures FailsDisplay(r, FailDisplay(r, m, seen), m, seen)
  {
  }

  lemma CompletionEffects(r: Rows, now: Time, m: MediaId, a: AttemptId, keys: seq<ObjectKey>)
    ensures CompletesMedia(r, CompleteWithPreviews(r, now, m, a, keys), now, m, a, keys)
    ensures CompletesPlainly(r, CompleteBase(r, m), m)
  {
  }

  lemma CleanupEffects(r: Rows, now: Time, a: AttemptId, status: AttemptStatus, due: Time, leaseUntil: Time, passes: nat, success: bool)
    ensures LeasesCleanup(r, LeaseCleanup(r, now, a, status, due, leaseUntil), now, a, status, due, leaseUntil)
    ensures FinishesCleanup(r, FinishCleanup(r, now, a, leaseUntil, passes, success), now, a, leaseUntil, passes, success)
    ensures DueForCleanup(r, a, now) && KeysAllowed(r.media[r.attempts[a].mediaId].key, a, r.attempts[a].keys) <==>
            Selectable(r, a, now)
  {
  }

  lemma ClaimEffect(r: Rows, now: Time, seenNow: Time, m: MediaId, eligible: bool)
    ensures ClaimsDeletion(r, ClaimDeletion(r, now, seenNow, m, eligible), now, seenNow, m, eligible)
  {
    if m in r.media {
      assert DeletionAllowed(r, m, seenNow) <==>
             !LeaseRunning(r.media[m], seenNow) &&
             forall a | a in r.attempts && r.attempts[a].mediaId == m && r.attempts[a].status != PUBLISHED ::
               r.attempts[a].cleanupPasses >= 1 && r.attempts[a].expiresAt + 604_800_000 <= seenNow
      by {
        forall a | a in r.attempts && r.attempts[a].mediaId == m
          ensures Unsettled(r.attempts[a], seenNow) <==>
                  r.attempts[a].status != PUBLISHED &&
                  !(r.attempts[a].cleanupPasses >= 1 && r.attempts[a].expiresAt + 604_800_000 <= seenNow)
        {
        }
      }
    }
  }

  // ----- A whole batch of the cleaner

  /** One row of the batch: leased, removed and rescheduled when it is still as it was read, and left alone otherwise. */
  ghost predicate Cleans(t: Attempt, t': Attempt, now: Time, s: Snapshot, removed: bool) {
    if t.status == s.status && t.nextCleanupAt == s.due && t.expiresAt <= now && s.keys != [] &&
       forall k | k in s.keys :: k == DisplayKey(s.key, s.a) || k == PreviewKey(s.key, s.a, Edge480) || k == PreviewKey(s.key, s.a, Edge800)
    then
      var next := if !removed then 600_000 else if s.passes == 0 then 86_400_000 else if s.passes == 1 then 172_800_000
        else if s.passes == 2 then 345_600_000 else 604_800_000;
      t' == t.(status := CLEANING, nextCleanupAt := now + next, cleanupPasses := t.cleanupPasses + if removed then 1 else 0)
    else t' == t
  }

  ghost predicate Batched(batch: seq<Snapshot>, a: AttemptId) { exists i :: 0 <= i < |batch| && batch[i].a == a }

  lemma OneCleaned(r: Rows, now: Time, s: Snapshot, removed: bool)
    ensures var r' := CleanOne(r, now, s, removed);
            r'.media == r.media && r'.attempts.Keys == r.attempts.Keys &&
            (s.a in r.attempts ==> Cleans(r.attempts[s.a], r'.attempts[s.a], now, s, removed)) &&
            forall a | a in r.attempts && a != s.a :: r'.attempts[a] == r.attempts[a]
  {
    hide KeysAllowed;
    assert KeysAllowed(s.key, s.a, s.keys) <==>
           s.keys != [] && forall k | k in s.keys ::
             k == DisplayKey(s.key, s.a) || k == PreviewKey(s.key, s.a, Edge480) || k == PreviewKey(s.key, s.a, Edge800)
    by { AllowedKeys(s.key, s.a, s.keys); }
  }

  lemma AllowedKeys(key: string, a: AttemptId, keys: seq<ObjectKey>)
    ensures KeysAllowed(key, a, keys) <==>
            keys != [] && forall k | k in keys ::
              k == DisplayKey(key, a) || k == PreviewKey(key, a, Edge480) || k == PreviewKey(key, a, Edge800)
  {
  }

  lemma BatchedLonger(batch: seq<Snapshot>, n: nat, a: AttemptId)
    requires n <= |batch|
    ensures Batched(batch[..n], a) ==> Batched(batch, a)
    ensures n < |batch| ==> Batched(batch, batch[n].a)
  {
    if Batched(batch[..n], a) {
      var i :| 0 <= i < n && batch[..n][i].a == a;
      assert batch[i].a == a;
    }
  }

  /** A batch of different attempts treats each of them so, and nothing else changes. */
  lemma {:induction false} BatchEffects(r: Rows, now: Time, batch: seq<Snapshot>, removed: seq<bool>)
    requires |removed| == |batch| && forall i, j | 0 <= i < j < |batch| :: batch[i].a != batch[j].a
    ensures var r' := CleanBatch(r, now, batch, removed);
            r'.media == r.media && r'.attempts.Keys == r.attempts.Keys &&
            (forall i | 0 <= i < |batch| && batch[i].a in r.attempts ::
               Cleans(r.attempts[batch[i].a], r'.attempts[batch[i].a], now, batch[i], removed[i])) &&
            forall a | a in r.attempts && !Batched(batch, a) :: r'.attempts[a] == r.attempts[a]
  {
    hide Cleans, CleanOne, Batched;
    if batch != [] {
      var n := |batch| - 1;
      var front := CleanBatch(r, now, batch[..n], removed[..n]);
      BatchEffects(r, now, batch[..n], removed[..n]);
      OneCleaned(front, now, batch[n], removed[n]);
      NotBatched(batch, n);
      forall a | a in r.attempts && !Batched(batch, a)
        ensures !Batched(batch[..n], a) && a != batch[n].a
      {
        BatchedLonger(batch, n, a);
      }
      forall i | 0 <= i < n && batch[i].a in r.attempts
        ensures batch[..n][i] == batch[i] && removed[..n][i] == removed[i] && batch[i].a != batch[n].a
      {
      }
    }
  }

  lemma NotBatched(batch: seq<Snapshot>, n: nat)
    requires n < |batch| && forall i, j | 0 <= i < j < |batch| :: batch[i].a != batch[j].a
    ensures !Batched(batch[..n], batch[n].a)
  {
  }
}
