/**
 The media and attempt tables, and the transactions that change them. Each transaction is one atomic step:
 a function gives the tables after it, and `MediaDatabase` carries it out one `updateMany` at a time.
 */
module MediaRows {
  import opened Options
  import opened MediaKeys

  type MediaId = nat
  type AttemptId = string
  type Time = nat

  const DISPLAY_UPLOAD_MS: nat := 30_000
  const CLEANUP_SLACK_MS: nat := 30_000
  const LEASE_MS: nat := 5 * 60_000
  const MAX_DISPLAY_ATTEMPTS: nat := 3
  const RETRY_MS: nat := 10 * 60 * 1000
  const DAY_MS: nat := 24 * 60 * 60 * 1000

  datatype MediaStatus = UPLOADING | PROCESSING | COMPLETED | FAILED

  datatype DisplayStatus = NoDisplay | DisplayProcessing | DisplayReady | DisplayFailed

  /** The published display asset; its url is the public url of `key`. */
  datatype Descriptor = Descriptor(key: ObjectKey, bytes: nat, frameCount: nat)

  datatype Media = Media(
    key: string, status: MediaStatus, claimedAt: Option<Time>,
    displayAsset: Option<Descriptor>, displayStatus: DisplayStatus,
    displayStartedAt: Option<Time>, displayAttempts: nat,
    previewVariants: Option<seq<ObjectKey>>)

  datatype AttemptStatus = PENDING | PUBLISHED | CLEANING

  datatype Attempt = Attempt(
    mediaId: MediaId, keys: seq<ObjectKey>, status: AttemptStatus,
    expiresAt: Time, nextCleanupAt: Time, cleanupPasses: nat)

  datatype Rows = Rows(media: map<MediaId, Media>, attempts: map<AttemptId, Attempt>)

  function NewMedia(key: string): Media {
    Media(key, UPLOADING, None, None, NoDisplay, None, 0, None)
  }

  /** The media row accepts display work: it is PROCESSING or COMPLETED, unclaimed, and still has this key. */
  predicate AcceptsDisplay(r: Rows, m: MediaId, key: string) {
    m in r.media && r.media[m].key == key && r.media[m].claimedAt.None? &&
    (r.media[m].status == PROCESSING || r.media[m].status == COMPLETED)
  }

  predicate AwaitsDisplay(r: Rows, m: MediaId, key: string) {
    AcceptsDisplay(r, m, key) && r.media[m].displayAsset.None?
  }

  /** The attempt may still be published: pending and not expired. */
  predicate Publishable(r: Rows, a: AttemptId, now: Time) {
    a in r.attempts && r.attempts[a].status == PENDING && now < r.attempts[a].expiresAt
  }

  predicate Unclaimed(r: Rows, m: MediaId) {
    m in r.media && r.media[m].claimedAt.None?
  }

  function SetMedia(r: Rows, m: MediaId, row: Media): Rows { r.(media := r.media[m := row]) }

  function SetAttempt(r: Rows, a: AttemptId, row: Attempt): Rows { r.(attempts := r.attempts[a := row]) }

  // ----- ensureAnimationDisplay

  function RegisterDisplay(r: Rows, now: Time, m: MediaId, key: string, a: AttemptId): Rows {
    if AcceptsDisplay(r, m, key) && a !in r.attempts then
      var expiresAt := now + DISPLAY_UPLOAD_MS;
      SetAttempt(r, a, Attempt(m, [DisplayKey(key, a)], PENDING, expiresAt, expiresAt + CLEANUP_SLACK_MS, 0))
    else r
  }

  predicate CanPublishDisplay(r: Rows, now: Time, m: MediaId, key: string, a: AttemptId) {
    Publishable(r, a, now) && AwaitsDisplay(r, m, key)
  }

  /** Both compare-and-set updates take effect, or neither does. */
  function PublishDisplay(r: Rows, now: Time, m: MediaId, key: string, a: AttemptId, d: Descriptor): Rows {
    if CanPublishDisplay(r, now, m, key, a) then
      var row := r.media[m].(displayAsset := Some(d), displayStatus := DisplayReady, displayStartedAt := None);
      SetMedia(SetAttempt(r, a, r.attempts[a].(status := PUBLISHED)), m, row)
    else r
  }

  // ----- processHistoricalDisplay

  predicate InBacklog(r: Rows, m: MediaId) {
    m in r.media && r.media[m].status == COMPLETED && r.media[m].claimedAt.None? &&
    r.media[m].displayAsset.None? && r.media[m].displayAttempts < MAX_DISPLAY_ATTEMPTS
  }

  predicate LeaseFree(row: Media, now: Time) {
    match row.displayStatus
    case NoDisplay => true
    case DisplayFailed => true
    case DisplayReady => false
    case DisplayProcessing => row.displayStartedAt.Some? && row.displayStartedAt.value + LEASE_MS < now
  }

  /** `seen` is the attempt counter read before the update; it is what the grant is fenced on. */
  predicate CanLease(r: Rows, now: Time, m: MediaId, seen: nat) {
    m in r.media && r.media[m].status == COMPLETED && r.media[m].claimedAt.None? &&
    r.media[m].displayAsset.None? && r.media[m].displayAttempts == seen && LeaseFree(r.media[m], now)
  }

  function LeaseDisplay(r: Rows, now: Time, m: MediaId, seen: nat): Rows {
    if CanLease(r, now, m, seen) then
      SetMedia(r, m, r.media[m].(displayStatus := DisplayProcessing, displayStartedAt := Some(now), displayAttempts := seen + 1))
    else r
  }

  /** A worker records its failure only while its own lease, number `lease`, is the current one. */
  predicate HoldsLease(r: Rows, m: MediaId, lease: nat) {
    m in r.media && r.media[m].displayStatus == DisplayProcessing && r.media[m].displayAttempts == lease
  }

  function FailDisplay(r: Rows, m: MediaId, lease: nat): Rows {
    if HoldsLease(r, m, lease) then
      SetMedia(r, m, r.media[m].(displayStatus := DisplayFailed, displayStartedAt := None))
    else r
  }

  // ----- stageOptionalPreviews, completeMediaWithPreviews

  function PreviewKeys(key: string, a: AttemptId, edges: seq<Edge>): (keys: seq<ObjectKey>)
    ensures |keys| == |edges|
    ensures forall i | 0 <= i < |edges| :: keys[i] == PreviewKey(key, a, edges[i])
  {
    if edges == [] then [] else [PreviewKey(key, a, edges[0])] + PreviewKeys(key, a, edges[1..])
  }

  /** Only the foreign key is checked: neither the status nor the deletion claim of the media row. */
  function RegisterPreview(r: Rows, m: MediaId, a: AttemptId, keys: seq<ObjectKey>, deadline: Time): Rows {
    if m in r.media && a !in r.attempts then
      SetAttempt(r, a, Attempt(m, keys, PENDING, deadline, deadline + CLEANUP_SLACK_MS, 0))
    else r
  }

  predicate CanComplete(r: Rows, m: MediaId) {
    Unclaimed(r, m) && r.media[m].status == PROCESSING
  }

  function CompleteBase(r: Rows, m: MediaId): Rows {
    if CanComplete(r, m) then SetMedia(r, m, r.media[m].(status := COMPLETED, previewVariants := None)) else r
  }

  predicate CanPublishPreviews(r: Rows, now: Time, m: MediaId, a: AttemptId) {
    Publishable(r, a, now) && r.attempts[a].mediaId == m && CanComplete(r, m)
  }

  /** Completion and preview publication commit together; an unpublishable attempt still completes the media. */
  function CompleteWithPreviews(r: Rows, now: Time, m: MediaId, a: AttemptId, keys: seq<ObjectKey>): Rows {
    if CanPublishPreviews(r, now, m, a) then
      SetMedia(SetAttempt(r, a, r.attempts[a].(status := PUBLISHED)), m,
               r.media[m].(status := COMPLETED, previewVariants := Some(keys)))
    else CompleteBase(r, m)
  }

  // ----- cleanupMediaPreviewAttempts

  predicate DueForCleanup(r: Rows, a: AttemptId, now: Time) {
    a in r.attempts &&
    var t := r.attempts[a];
    t.status != PUBLISHED && t.nextCleanupAt <= now && t.expiresAt <= now &&
    t.mediaId in r.media && (r.media[t.mediaId].status == COMPLETED || r.media[t.mediaId].status == FAILED)
  }

  predicate KeysAllowed(key: string, a: AttemptId, keys: seq<ObjectKey>) {
    keys != [] &&
    forall k | k in keys :: k in {PreviewKey(key, a, Edge480), PreviewKey(key, a, Edge800), DisplayKey(key, a)}
  }

  /** The claim is fenced on the status and due time the cleaner read, both possibly stale. */
  predicate CanLeaseCleanup(r: Rows, now: Time, a: AttemptId, status: AttemptStatus, due: Time) {
    a in r.attempts && r.attempts[a].status == status && r.attempts[a].nextCleanupAt == due &&
    r.attempts[a].expiresAt <= now
  }

  function LeaseCleanup(r: Rows, now: Time, a: AttemptId, status: AttemptStatus, due: Time, leaseUntil: Time): Rows {
    if CanLeaseCleanup(r, now, a, status, due) then
      SetAttempt(r, a, r.attempts[a].(status := CLEANING, nextCleanupAt := leaseUntil))
    else r
  }

  /** 1, 2, 4, 7, 7, ... days after a successful pass, ten minutes after a failed one. */
  function CleanupDelay(success: bool, passes: nat): nat {
    if !success then RETRY_MS
    else (match passes case 0 => 1 case 1 => 2 case 2 => 4 case _ => 7) * DAY_MS
  }

  function FinishCleanup(r: Rows, now: Time, a: AttemptId, leaseUntil: Time, seenPasses: nat, success: bool): Rows {
    if a in r.attempts && r.attempts[a].status == CLEANING && r.attempts[a].nextCleanupAt == leaseUntil then
      var t := r.attempts[a];
      SetAttempt(r, a, t.(nextCleanupAt := now + CleanupDelay(success, seenPasses),
                          cleanupPasses := if success then t.cleanupPasses + 1 else t.cleanupPasses))
    else r
  }

  // ----- mediaDisplayCleanupProtection, claimUnreferenced, the final delete

  /** An unpublished attempt that may still leave an object behind. */
  predicate Unsettled(t: Attempt, now: Time) {
    t.status != PUBLISHED && (t.cleanupPasses == 0 || t.expiresAt + 7 * DAY_MS > now)
  }

  predicate LeaseRunning(row: Media, now: Time) {
    row.displayStatus == DisplayProcessing && row.displayStartedAt.Some? && row.displayStartedAt.value + LEASE_MS >= now
  }

  predicate DeletionAllowed(r: Rows, m: MediaId, now: Time)
    requires m in r.media
  {
    !LeaseRunning(r.media[m], now) &&
    forall a | a in r.attempts && r.attempts[a].mediaId == m :: !Unsettled(r.attempts[a], now)
  }

  /**
   `seenNow` is the clock the guard was computed with, before the transaction; `eligible` stands for the
   caller's own status filter and the absence of references. An earlier claim keeps its time.
   */
  function ClaimDeletion(r: Rows, now: Time, seenNow: Time, m: MediaId, eligible: bool): Rows {
    if eligible && Unclaimed(r, m) && DeletionAllowed(r, m, seenNow) then
      SetMedia(r, m, r.media[m].(claimedAt := Some(now)))
    else r
  }

  /** Deleting the media row deletes its attempt rows by cascade. */
  function DeleteClaimed(r: Rows, m: MediaId): Rows {
    if m in r.media && r.media[m].claimedAt.Some? then
      Rows(r.media - {m}, map a | a in r.attempts && r.attempts[a].mediaId != m :: r.attempts[a])
    else r
  }

  // ----- upload confirmation and failure

  predicate StatusEdge(from: MediaStatus, to: MediaStatus) {
    (from == UPLOADING && (to == PROCESSING || to == FAILED)) ||
    (from == PROCESSING && (to == UPLOADING || to == FAILED))
  }

  function MoveStatus(r: Rows, m: MediaId, from: MediaStatus, to: MediaStatus): Rows {
    if m in r.media && r.media[m].status == from && StatusEdge(from, to) then
      SetMedia(r, m, r.media[m].(status := to))
    else r
  }

  /** An attempt row as the cleaner read it when it selected its batch. */
  datatype Snapshot = Snapshot(a: AttemptId, key: string, keys: seq<ObjectKey>, status: AttemptStatus, due: Time, passes: nat)

  /** One row of the cleaner's batch, run without interference; `removed` is the outcome of the object deletions. */
  function CleanOne(r: Rows, now: Time, s: Snapshot, removed: bool): Rows {
    if KeysAllowed(s.key, s.a, s.keys) && CanLeaseCleanup(r, now, s.a, s.status, s.due) then
      FinishCleanup(LeaseCleanup(r, now, s.a, s.status, s.due, now + RETRY_MS), now, s.a, now + RETRY_MS, s.passes, removed)
    else r
  }

  function CleanBatch(r: Rows, now: Time, batch: seq<Snapshot>, removed: seq<bool>): Rows
    requires |removed| == |batch|
  {
    if batch == [] then r
    else
      var n := |batch| - 1;
      CleanOne(CleanBatch(r, now, batch[..n], removed[..n]), now, batch[n], removed[n])
  }
}
