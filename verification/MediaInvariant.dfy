/** The invariant of the media protocol, what no step undoes, and the proof that every action keeps both. */
module MediaInvariant {
  import opened Options
  import opened Sequences
  import opened MediaKeys
  import opened MediaRows
  import opened MediaPublication

  // ----- What every step keeps

  ghost predicate Published(r: Rows, a: AttemptId, m: MediaId, keys: seq<ObjectKey>) {
    a in r.attempts && r.attempts[a].status == PUBLISHED && r.attempts[a].mediaId == m && r.attempts[a].keys == keys
  }

  ghost predicate DisplayPart(r: Rows, m: MediaId)
    requires m in r.media
  {
    var x := r.media[m];
    (x.displayStatus == DisplayReady <==> x.displayAsset.Some?) &&
    x.displayAttempts <= MAX_DISPLAY_ATTEMPTS &&
    (x.displayAsset.Some? ==>
       var k := x.displayAsset.value.key;
       k.DisplayKey? && Published(r, k.attempt, m, [k]))
  }

  ghost predicate PreviewPart(r: Rows, m: MediaId)
    requires m in r.media
  {
    var x := r.media[m];
    x.previewVariants.Some? ==>
      var keys := x.previewVariants.value;
      x.status == COMPLETED && keys != [] && keys[0].PreviewKey? && Published(r, keys[0].attempt, m, keys)
  }

  ghost predicate MediaOk(r: Rows, m: MediaId)
    requires m in r.media
  {
    ValidKey(SourceKey(r.media[m].key)) && DisplayPart(r, m) && PreviewPart(r, m)
  }

  ghost predicate Referenced(x: Media, keys: seq<ObjectKey>) {
    (x.displayAsset.Some? && keys == [x.displayAsset.value.key]) || x.previewVariants == Some(keys)
  }

  ghost predicate OwnedBy(a: AttemptId, keys: seq<ObjectKey>) {
    keys != [] && forall k | k in keys :: Owner(k) == Some(a)
  }

  ghost predicate AttemptOk(r: Rows, a: AttemptId)
    requires a in r.attempts
  {
    var t := r.attempts[a];
    t.mediaId in r.media && OwnedBy(a, t.keys) &&
    (t.status == PUBLISHED ==> Referenced(r.media[t.mediaId], t.keys))
  }

  ghost predicate RowsOk(r: Rows) {
    (forall m | m in r.media :: MediaOk(r, m)) && (forall a | a in r.attempts :: AttemptOk(r, a))
  }

  /** The objects of this attempt are out of reach of every DELETE, past or pending. */
  ghost predicate Safe(r: Rows, a: AttemptId) {
    a in r.attempts && r.attempts[a].status != CLEANING && Unclaimed(r, r.attempts[a].mediaId)
  }

  ghost predicate Stored(w: World, keys: seq<ObjectKey>) {
    forall k | k in keys :: k in w.objects
  }

  ghost predicate ObjectsOk(w: World) {
    (forall a | Safe(w.rows, a) && w.rows.attempts[a].status == PUBLISHED :: Stored(w, w.rows.attempts[a].keys)) &&
    (forall k | k in w.deletes && Owner(k).Some? :: Owner(k).value in w.usedAttempts && !Safe(w.rows, Owner(k).value))
  }

  ghost predicate IdsOk(w: World) {
    w.rows.media.Keys <= w.usedMedia && w.rows.attempts.Keys <= w.usedAttempts && w.register.Keys <= w.usedMedia &&
    (forall a | a in w.rows.attempts && w.rows.attempts[a].cleanupPasses > 0 :: a in w.swept)
  }

  /** The register is written once, and every reader's copy agrees with it. */
  ghost predicate Recorded(w: World, m: MediaId, d: Descriptor) {
    m in w.register && w.register[m] == d
  }

  ghost predicate RegisterOk(w: World) {
    (forall m | m in w.rows.media ::
       w.rows.media[m].displayAsset == if m in w.register then Some(w.register[m]) else None) &&
    (forall x | x in w.results :: Recorded(w, x.0, x.1))
  }

  ghost predicate LeaseOk(w: World, m: MediaId, lease: Option<nat>) {
    lease.Some? ==> 1 <= lease.value && (m in w.rows.media ==> lease.value <= w.rows.media[m].displayAttempts)
  }

  ghost predicate SourceOk(w: World, m: MediaId, key: string) {
    m in w.usedMedia && (m in w.rows.media ==> w.rows.media[m].key == key)
  }

  /** An attempt a publisher works on: while its row exists, it is the row this publisher wrote. */
  ghost predicate Mine(w: World, a: AttemptId, m: MediaId, keys: seq<ObjectKey>) {
    a in w.usedAttempts && OwnedBy(a, keys) &&
    (a in w.rows.attempts ==> w.rows.attempts[a].mediaId == m && w.rows.attempts[a].keys == keys)
  }

  ghost predicate Delivered(w: World, a: AttemptId, keys: seq<ObjectKey>) {
    Safe(w.rows, a) ==> Stored(w, keys)
  }

  ghost predicate Cleaning(w: World, a: AttemptId) {
    a in w.usedAttempts && (a in w.rows.attempts ==> w.rows.attempts[a].status == CLEANING)
  }

  ghost predicate ProcessOk(w: World, s: Process) {
    match s
    case Idle => true
    case Reading(m, key, asset, lease) =>
      SourceOk(w, m, key) && LeaseOk(w, m, lease) && (asset.Some? ==> Recorded(w, m, asset.value))
    case Backlog(m, key, seen) => SourceOk(w, m, key) && seen < MAX_DISPLAY_ATTEMPTS
    case Registered(m, key, a, lease) =>
      SourceOk(w, m, key) && LeaseOk(w, m, lease) && Mine(w, a, m, [DisplayKey(key, a)])
    case Uploaded(m, key, a, d, lease) =>
      SourceOk(w, m, key) && LeaseOk(w, m, lease) && d.key.DisplayKey? &&
      Mine(w, a, m, [d.key]) && Delivered(w, a, [d.key])
    case Lost(m, key, lease) => SourceOk(w, m, key) && LeaseOk(w, m, lease)
    case Displayed(m, key) => SourceOk(w, m, key)
    case Staged(m, a, keys) => m in w.usedMedia && Mine(w, a, m, keys) && keys[0].PreviewKey?
    case StagedUploaded(m, a, keys) =>
      m in w.usedMedia && Mine(w, a, m, keys) && keys[0].PreviewKey? && Delivered(w, a, keys)
    case Selected(a, keys, status, due, passes) => a in w.usedAttempts && OwnedBy(a, keys) && status != PUBLISHED
    case Removing(a, keys, leaseUntil, passes) => Cleaning(w, a) && OwnedBy(a, keys)
    case Removed(a, leaseUntil, passes) => Cleaning(w, a) && a in w.swept
  }

  /** No two processes hold the same lease of a media. */
  ghost predicate LeasesDistinct(w: World) {
    forall p, q | p in w.processes && q in w.processes && p != q && LeaseOf(w.processes[p]).Some? &&
                  MediaOf(w.processes[p]) == MediaOf(w.processes[q]) ::
      LeaseOf(w.processes[p]) != LeaseOf(w.processes[q])
  }

  ghost predicate ProcessesOk(w: World) {
    forall p | p in w.processes :: ProcessOk(w, w.processes[p])
  }

  ghost predicate Inv(w: World) {
    RowsOk(w.rows) && ObjectsOk(w) && IdsOk(w) && RegisterOk(w) && ProcessesOk(w) && LeasesDistinct(w)
  }

  // ----- What no step undoes

  ghost predicate MediaEvolves(usedMedia: set<MediaId>, r: Rows, r': Rows, m: MediaId)
    requires m in r'.media
  {
    m in usedMedia ==>
      m in r.media &&
      var x := r.media[m];
      var x' := r'.media[m];
      x'.key == x.key && x.displayAttempts <= x'.displayAttempts &&
      (x.status == COMPLETED ==> x'.status == COMPLETED) &&
      (x.displayAsset.Some? ==> x'.displayAsset == x.displayAsset) &&
      (x.previewVariants.Some? ==> x'.previewVariants == x.previewVariants) &&
      (x.claimedAt.Some? ==>
         x'.claimedAt == x.claimedAt && x'.displayAttempts == x.displayAttempts && x'.displayAsset == x.displayAsset)
  }

  /** An old attempt keeps its identity and never leaves PUBLISHED or CLEANING; a new display attempt has an unclaimed media. */
  ghost predicate AttemptEvolves(usedMedia: set<MediaId>, usedAttempts: set<AttemptId>, r: Rows, r': Rows, a: AttemptId)
    requires a in r'.attempts
  {
    var t' := r'.attempts[a];
    if a in usedAttempts then
      a in r.attempts &&
      var t := r.attempts[a];
      t'.mediaId == t.mediaId && t'.keys == t.keys && t'.expiresAt == t.expiresAt && t.cleanupPasses <= t'.cleanupPasses &&
      (t.status == PUBLISHED ==> t'.status == PUBLISHED) && (t.status == CLEANING ==> t'.status == CLEANING)
    else
      t'.keys != [] && (t'.keys[0].DisplayKey? ==> t'.mediaId !in usedMedia || Unclaimed(r, t'.mediaId))
  }

  ghost predicate RowsEvolve(usedMedia: set<MediaId>, usedAttempts: set<AttemptId>, r: Rows, r': Rows) {
    (forall m | m in r'.media :: MediaEvolves(usedMedia, r, r', m)) &&
    (forall a | a in r'.attempts :: AttemptEvolves(usedMedia, usedAttempts, r, r', a))
  }

  ghost predicate Evolves(w: World, w': World) {
    w.usedMedia <= w'.usedMedia && w.usedAttempts <= w'.usedAttempts && w.swept <= w'.swept && w.clock <= w'.clock &&
    w.results <= w'.results && (forall m | m in w.register :: Recorded(w', m, w.register[m])) &&
    RowsEvolve(w.usedMedia, w.usedAttempts, w.rows, w'.rows)
  }

  /** Objects disappear only when no safe attempt owns them. */
  ghost predicate KeepsSafeObjects(w: World, w': World) {
    forall k | k in w.objects && k !in w'.objects && Owner(k).Some? :: !Safe(w.rows, Owner(k).value)
  }

  /** Publishing an attempt and sending a DELETE are the two ways to put an object at risk. */
  ghost predicate NewlyPublishedStored(w: World, w': World) {
    forall a | a in w'.rows.attempts && w'.rows.attempts[a].status == PUBLISHED &&
               !(a in w.rows.attempts && w.rows.attempts[a].status == PUBLISHED) :: Stored(w', w'.rows.attempts[a].keys)
  }

  ghost predicate NewDeletesHarmless(w: World, w': World) {
    forall k | k in w'.deletes && k !in w.deletes && Owner(k).Some? ::
      Owner(k).value in w'.usedAttempts && !Safe(w'.rows, Owner(k).value)
  }

  lemma SafeBefore(w: World, w': World, a: AttemptId)
    requires Inv(w) && Evolves(w, w') && a in w.usedAttempts && Safe(w'.rows, a)
    ensures Safe(w.rows, a) && w.rows.attempts[a].keys == w'.rows.attempts[a].keys
  {
    assert AttemptEvolves(w.usedMedia, w.usedAttempts, w.rows, w'.rows, a);
    assert AttemptOk(w.rows, a);
    assert MediaEvolves(w.usedMedia, w.rows, w'.rows, w.rows.attempts[a].mediaId);
  }

  lemma ObjectsStayOk(w: World, w': World)
    requires Inv(w) && Evolves(w, w') && RowsOk(w'.rows) && IdsOk(w')
    requires KeepsSafeObjects(w, w') && NewlyPublishedStored(w, w') && NewDeletesHarmless(w, w')
    ensures ObjectsOk(w')
  {
    forall a | Safe(w'.rows, a) && w'.rows.attempts[a].status == PUBLISHED
      ensures Stored(w', w'.rows.attempts[a].keys)
    {
      if a in w.rows.attempts && w.rows.attempts[a].status == PUBLISHED {
        SafeBefore(w, w', a);
        assert AttemptOk(w'.rows, a);
      }
    }
    forall k | k in w'.deletes && Owner(k).Some?
      ensures Owner(k).value in w'.usedAttempts && !Safe(w'.rows, Owner(k).value)
    {
      if k in w.deletes && Safe(w'.rows, Owner(k).value) { SafeBefore(w, w', Owner(k).value); }
    }
  }

  lemma OthersKeep(w: World, w': World, s: Process)
    requires Inv(w) && ProcessOk(w, s) && Evolves(w, w') && KeepsSafeObjects(w, w')
    ensures ProcessOk(w', s)
  {
    forall m | m in w'.rows.media && m in w.usedMedia
      ensures m in w.rows.media && w'.rows.media[m].key == w.rows.media[m].key &&
              w.rows.media[m].displayAttempts <= w'.rows.media[m].displayAttempts
    {
      assert MediaEvolves(w.usedMedia, w.rows, w'.rows, m);
    }
    forall a | a in w'.rows.attempts && a in w.usedAttempts
      ensures AttemptEvolves(w.usedMedia, w.usedAttempts, w.rows, w'.rows, a)
    {
    }
    match s
    case Uploaded(m, key, a, d, lease) =>
      if Safe(w'.rows, a) { SafeBefore(w, w', a); }
    case StagedUploaded(m, a, keys) =>
      if Safe(w'.rows, a) { SafeBefore(w, w', a); }
    case _ =>
  }

  /** What is left to show of a step of process `p`, once the other processes and the old objects are taken care of. */
  lemma Conclude(w: World, w': World, p: ProcessId)
    requires Inv(w) && Evolves(w, w') && RowsOk(w'.rows) && IdsOk(w') && RegisterOk(w')
    requires KeepsSafeObjects(w, w') && NewlyPublishedStored(w, w') && NewDeletesHarmless(w, w')
    requires forall q | q in w'.processes && q != p :: q in w.processes && w'.processes[q] == w.processes[q]
    requires ProcessOk(w', At(w', p))
    requires LeaseOf(At(w', p)).Some? ==>
               (LeaseOf(At(w', p)) == LeaseOf(At(w, p)) && MediaOf(At(w', p)) == MediaOf(At(w, p))) ||
               FreshLease(w, MediaOf(At(w', p)), LeaseOf(At(w', p)).value)
    ensures Inv(w')
  {
    ObjectsStayOk(w, w');
    forall q | q in w'.processes
      ensures ProcessOk(w', w'.processes[q])
    {
      if q != p { OthersKeep(w, w', w.processes[q]); }
    }
  }

  /** A lease number no process can hold yet. */
  ghost predicate FreshLease(w: World, m: MediaId, lease: nat) {
    m in w.rows.media && w.rows.media[m].displayAttempts < lease
  }

  // ----- The transactions keep the tables well formed

  ghost predicate Tables(usedMedia: set<MediaId>, usedAttempts: set<AttemptId>, r: Rows) {
    RowsOk(r) && r.media.Keys <= usedMedia && r.attempts.Keys <= usedAttempts
  }

  ghost predicate RowsStep(usedMedia: set<MediaId>, usedAttempts: set<AttemptId>, r: Rows, r': Rows) {
    RowsOk(r') && RowsEvolve(usedMedia, usedAttempts, r, r')
  }

  /** A new attempt row leaves every other row as it should be. */
  lemma NewAttemptSuffices(usedMedia: set<MediaId>, usedAttempts: set<AttemptId>, r: Rows, a: AttemptId, t: Attempt)
    requires Tables(usedMedia, usedAttempts, r) && a !in usedAttempts
    requires t.mediaId in r.media && OwnedBy(a, t.keys) && t.status == PENDING
    requires t.keys[0].DisplayKey? ==> Unclaimed(r, t.mediaId)
    ensures RowsStep(usedMedia, usedAttempts, r, SetAttempt(r, a, t))
  {
    var r' := SetAttempt(r, a, t);
    forall n | n in r'.media
      ensures MediaOk(r', n) && MediaEvolves(usedMedia, r, r', n)
    {
      assert MediaOk(r, n);
    }
    forall b | b in r'.attempts
      ensures AttemptOk(r', b) && AttemptEvolves(usedMedia, usedAttempts, r, r', b)
    {
      if b != a { assert AttemptOk(r, b); }
    }
  }

  /** So does publishing an attempt together with the media row `x` that refers to it. */
  lemma PublicationSuffices(usedMedia: set<MediaId>, usedAttempts: set<AttemptId>, r: Rows, a: AttemptId, x: Media)
    requires Tables(usedMedia, usedAttempts, r) && a in r.attempts && r.attempts[a].status == PENDING
    requires var t := r.attempts[a].(status := PUBLISHED);
             var r' := SetMedia(SetAttempt(r, a, t), t.mediaId, x);
             Referenced(x, t.keys) && MediaOk(r', t.mediaId) && MediaEvolves(usedMedia, r, r', t.mediaId)
    ensures var t := r.attempts[a].(status := PUBLISHED);
            RowsStep(usedMedia, usedAttempts, r, SetMedia(SetAttempt(r, a, t), t.mediaId, x))
  {
    var t := r.attempts[a].(status := PUBLISHED);
    var r' := SetMedia(SetAttempt(r, a, t), t.mediaId, x);
    PublishedAttempts(usedMedia, usedAttempts, r, a, x);
    hide AttemptOk, AttemptEvolves, MediaOk, MediaEvolves;
    forall n | n in r'.media
      ensures MediaOk(r', n) && MediaEvolves(usedMedia, r, r', n)
    {
      if n != t.mediaId { OtherMediaStay(usedMedia, r, r', a, n); }
    }
  }

  lemma OtherMediaStay(usedMedia: set<MediaId>, r: Rows, r': Rows, a: AttemptId, n: MediaId)
    requires n in r.media && n in r'.media && r'.media[n] == r.media[n] && MediaOk(r, n)
    requires a in r.attempts && r.attempts[a].status == PENDING
    requires forall b | b in r.attempts && b != a :: b in r'.attempts && r'.attempts[b] == r.attempts[b]
    ensures MediaOk(r', n) && MediaEvolves(usedMedia, r, r', n)
  {
  }

  lemma PublishedAttempts(usedMedia: set<MediaId>, usedAttempts: set<AttemptId>, r: Rows, a: AttemptId, x: Media)
    requires Tables(usedMedia, usedAttempts, r) && a in r.attempts && r.attempts[a].status == PENDING
    requires var t := r.attempts[a].(status := PUBLISHED);
             var r' := SetMedia(SetAttempt(r, a, t), t.mediaId, x);
             Referenced(x, t.keys) && MediaEvolves(usedMedia, r, r', t.mediaId)
    ensures var t := r.attempts[a].(status := PUBLISHED);
            var r' := SetMedia(SetAttempt(r, a, t), t.mediaId, x);
            t.mediaId in r.media && forall b | b in r'.attempts :: AttemptOk(r', b) && AttemptEvolves(usedMedia, usedAttempts, r, r', b)
  {
    hide MediaOk;
    var t := r.attempts[a].(status := PUBLISHED);
    var r' := SetMedia(SetAttempt(r, a, t), t.mediaId, x);
    assert AttemptOk(r, a);
    forall b | b in r'.attempts
      ensures AttemptOk(r', b) && AttemptEvolves(usedMedia, usedAttempts, r, r', b)
    {
      if b != a { assert AttemptOk(r, b); }
    }
  }

  /** The same for a change of one media row alone. */
  lemma MediaChangeSuffices(usedMedia: set<MediaId>, usedAttempts: set<AttemptId>, r: Rows, m: MediaId, x: Media)
    requires Tables(usedMedia, usedAttempts, r)
    requires MediaOk(SetMedia(r, m, x), m) && MediaEvolves(usedMedia, r, SetMedia(r, m, x), m)
    ensures RowsStep(usedMedia, usedAttempts, r, SetMedia(r, m, x))
  {
    var r' := SetMedia(r, m, x);
    forall n | n in r'.media
      ensures MediaOk(r', n) && MediaEvolves(usedMedia, r, r', n)
    {
      if n != m { assert MediaOk(r, n); }
    }
    forall b | b in r'.attempts
      ensures AttemptOk(r', b) && AttemptEvolves(usedMedia, usedAttempts, r, r', b)
    {
      assert AttemptOk(r, b);
    }
  }

  /** The same for an unpublished attempt row that stays unpublished. */
  lemma AttemptChangeSuffices(usedMedia: set<MediaId>, usedAttempts: set<AttemptId>, r: Rows, a: AttemptId, t': Attempt)
    requires Tables(usedMedia, usedAttempts, r) && a in r.attempts
    requires var t := r.attempts[a];
             t.status != PUBLISHED && t'.status == CLEANING && t'.mediaId == t.mediaId && t'.keys == t.keys &&
             t'.expiresAt == t.expiresAt && t.cleanupPasses <= t'.cleanupPasses
    ensures RowsStep(usedMedia, usedAttempts, r, SetAttempt(r, a, t'))
  {
    var r' := SetAttempt(r, a, t');
    forall n | n in r'.media
      ensures MediaOk(r', n) && MediaEvolves(usedMedia, r, r', n)
    {
      assert MediaOk(r, n);
    }
    forall b | b in r'.attempts
      ensures AttemptOk(r', b) && AttemptEvolves(usedMedia, usedAttempts, r, r', b)
    {
      assert AttemptOk(r, b);
    }
  }

  lemma SameRows(um: set<MediaId>, ua: set<AttemptId>, r: Rows)
    requires Tables(um, ua, r)
    ensures RowsStep(um, ua, r, r)
  {
    forall a | a in r.attempts
      ensures AttemptOk(r, a)
    {
    }
  }

  lemma RegisterDisplayRows(um: set<MediaId>, ua: set<AttemptId>, r: Rows, now: Time, m: MediaId, key: string, a: AttemptId)
    requires Tables(um, ua, r) && a !in ua
    ensures RowsStep(um, ua, r, RegisterDisplay(r, now, m, key, a))
  {
    var r' := RegisterDisplay(r, now, m, key, a);
    if AcceptsDisplay(r, m, key) {
      NewAttemptSuffices(um, ua, r, a, r'.attempts[a]);
    } else {
      SameRows(um, ua, r);
    }
  }

  /** The media row a publication of a display writes. */
  lemma DisplayedMedia(um: set<MediaId>, r: Rows, now: Time, m: MediaId, key: string, a: AttemptId, d: Descriptor)
    requires m in r.media && MediaOk(r, m) && CanPublishDisplay(r, now, m, key, a) && d.key.DisplayKey? && OwnedBy(a, [d.key])
    requires a in r.attempts ==> r.attempts[a].mediaId == m && r.attempts[a].keys == [d.key]
    ensures var r' := PublishDisplay(r, now, m, key, a, d);
            m in r'.media && r' == SetMedia(SetAttempt(r, a, r.attempts[a].(status := PUBLISHED)), m, r'.media[m]) &&
            Referenced(r'.media[m], [d.key]) && MediaOk(r', m) && MediaEvolves(um, r, r', m)
  {
    assert d.key in [d.key];
  }

  lemma PublishDisplayRows(um: set<MediaId>, ua: set<AttemptId>, r: Rows, now: Time, m: MediaId, key: string, a: AttemptId, d: Descriptor)
    requires Tables(um, ua, r) && d.key.DisplayKey? && OwnedBy(a, [d.key])
    requires a in r.attempts ==> r.attempts[a].mediaId == m && r.attempts[a].keys == [d.key]
    ensures RowsStep(um, ua, r, PublishDisplay(r, now, m, key, a, d))
  {
    hide MediaOk, AttemptOk, MediaEvolves, Referenced, RowsStep, OwnedBy;
    if CanPublishDisplay(r, now, m, key, a) {
      DisplayedMedia(um, r, now, m, key, a, d);
      PublicationSuffices(um, ua, r, a, PublishDisplay(r, now, m, key, a, d).media[m]);
    } else {
      SameRows(um, ua, r);
    }
  }

  lemma LeaseDisplayRows(um: set<MediaId>, ua: set<AttemptId>, r: Rows, now: Time, m: MediaId, seen: nat)
    requires Tables(um, ua, r) && seen < MAX_DISPLAY_ATTEMPTS
    ensures RowsStep(um, ua, r, LeaseDisplay(r, now, m, seen))
  {
    if CanLease(r, now, m, seen) {
      MediaChangeSuffices(um, ua, r, m, r.media[m].(displayStatus := DisplayProcessing, displayStartedAt := Some(now), displayAttempts := seen + 1));
    } else {
      SameRows(um, ua, r);
    }
  }

  lemma FailDisplayRows(um: set<MediaId>, ua: set<AttemptId>, r: Rows, m: MediaId, lease: nat)
    requires Tables(um, ua, r)
    ensures RowsStep(um, ua, r, FailDisplay(r, m, lease))
  {
    if HoldsLease(r, m, lease) {
      MediaChangeSuffices(um, ua, r, m, r.media[m].(displayStatus := DisplayFailed, displayStartedAt := None));
    } else {
      SameRows(um, ua, r);
    }
  }

  lemma RegisterPreviewRows(um: set<MediaId>, ua: set<AttemptId>, r: Rows, m: MediaId, a: AttemptId, keys: seq<ObjectKey>, deadline: Time)
    requires Tables(um, ua, r) && a !in ua && OwnedBy(a, keys) && keys[0].PreviewKey?
    ensures RowsStep(um, ua, r, RegisterPreview(r, m, a, keys, deadline))
  {
    if m in r.media {
      NewAttemptSuffices(um, ua, r, a, RegisterPreview(r, m, a, keys, deadline).attempts[a]);
    } else {
      SameRows(um, ua, r);
    }
  }

  lemma CompleteBaseRows(um: set<MediaId>, ua: set<AttemptId>, r: Rows, m: MediaId)
    requires Tables(um, ua, r)
    ensures RowsStep(um, ua, r, CompleteBase(r, m))
  {
    if CanComplete(r, m) {
      MediaChangeSuffices(um, ua, r, m, r.media[m].(status := COMPLETED, previewVariants := None));
    } else {
      SameRows(um, ua, r);
    }
  }

  /** The media row a publication of previews writes. */
  lemma CompletedWithPreviews(um: set<MediaId>, r: Rows, now: Time, m: MediaId, a: AttemptId, keys: seq<ObjectKey>)
    requires m in r.media && MediaOk(r, m) && CanPublishPreviews(r, now, m, a) && OwnedBy(a, keys) && keys[0].PreviewKey?
    requires a in r.attempts ==> r.attempts[a].mediaId == m && r.attempts[a].keys == keys
    ensures var r' := CompleteWithPreviews(r, now, m, a, keys);
            m in r'.media && r' == SetMedia(SetAttempt(r, a, r.attempts[a].(status := PUBLISHED)), m, r'.media[m]) &&
            Referenced(r'.media[m], keys) && MediaOk(r', m) && MediaEvolves(um, r, r', m)
  {
    assert keys[0] in keys;
  }

  lemma CompleteWithPreviewsRows(um: set<MediaId>, ua: set<AttemptId>, r: Rows, now: Time, m: MediaId, a: AttemptId, keys: seq<ObjectKey>)
    requires Tables(um, ua, r) && OwnedBy(a, keys) && keys[0].PreviewKey?
    requires a in r.attempts ==> r.attempts[a].mediaId == m && r.attempts[a].keys == keys
    ensures RowsStep(um, ua, r, CompleteWithPreviews(r, now, m, a, keys))
  {
    hide CompleteWithPreviews, CompleteBase, MediaOk, AttemptOk, MediaEvolves, Referenced, RowsStep, OwnedBy;
    if CanPublishPreviews(r, now, m, a) {
      CompletedWithPreviews(um, r, now, m, a, keys);
      PublicationSuffices(um, ua, r, a, CompleteWithPreviews(r, now, m, a, keys).media[m]);
    } else {
      NoPublication(r, now, m, a, keys);
      CompleteBaseRows(um, ua, r, m);
    }
  }

  lemma NoPublication(r: Rows, now: Time, m: MediaId, a: AttemptId, keys: seq<ObjectKey>)
    requires !CanPublishPreviews(r, now, m, a)
    ensures CompleteWithPreviews(r, now, m, a, keys) == CompleteBase(r, m)
  {
    hide CompleteBase;
  }

  lemma LeaseCleanupRows(um: set<MediaId>, ua: set<AttemptId>, r: Rows, now: Time, a: AttemptId, status: AttemptStatus, due: Time, leaseUntil: Time)
    requires Tables(um, ua, r) && status != PUBLISHED
    ensures RowsStep(um, ua, r, LeaseCleanup(r, now, a, status, due, leaseUntil))
  {
    if CanLeaseCleanup(r, now, a, status, due) {
      AttemptChangeSuffices(um, ua, r, a, r.attempts[a].(status := CLEANING, nextCleanupAt := leaseUntil));
    } else {
      SameRows(um, ua, r);
    }
  }

  lemma FinishCleanupRows(um: set<MediaId>, ua: set<AttemptId>, r: Rows, now: Time, a: AttemptId, leaseUntil: Time, passes: nat, success: bool)
    requires Tables(um, ua, r)
    ensures RowsStep(um, ua, r, FinishCleanup(r, now, a, leaseUntil, passes, success))
  {
    var r' := FinishCleanup(r, now, a, leaseUntil, passes, success);
    if a in r.attempts && r.attempts[a].status == CLEANING && r.attempts[a].nextCleanupAt == leaseUntil {
      AttemptChangeSuffices(um, ua, r, a, r'.attempts[a]);
    } else {
      SameRows(um, ua, r);
    }
  }

  lemma ClaimDeletionRows(um: set<MediaId>, ua: set<AttemptId>, r: Rows, now: Time, seenNow: Time, m: MediaId, eligible: bool)
    requires Tables(um, ua, r)
    ensures RowsStep(um, ua, r, ClaimDeletion(r, now, seenNow, m, eligible))
  {
    if eligible && Unclaimed(r, m) && DeletionAllowed(r, m, seenNow) {
      MediaChangeSuffices(um, ua, r, m, r.media[m].(claimedAt := Some(now)));
    } else {
      SameRows(um, ua, r);
    }
  }

  lemma MoveStatusRows(um: set<MediaId>, ua: set<AttemptId>, r: Rows, m: MediaId, from: MediaStatus, to: MediaStatus)
    requires Tables(um, ua, r)
    ensures RowsStep(um, ua, r, MoveStatus(r, m, from, to))
  {
    if m in r.media && r.media[m].status == from && StatusEdge(from, to) {
      MediaChangeSuffices(um, ua, r, m, r.media[m].(status := to));
    } else {
      SameRows(um, ua, r);
    }
  }

  lemma CreateMediaRows(um: set<MediaId>, ua: set<AttemptId>, r: Rows, m: MediaId, key: string)
    requires Tables(um, ua, r) && m !in um && ValidKey(SourceKey(key))
    ensures RowsStep(um, ua, r, SetMedia(r, m, NewMedia(key)))
  {
    MediaChangeSuffices(um, ua, r, m, NewMedia(key));
  }

  lemma DeleteClaimedRows(um: set<MediaId>, ua: set<AttemptId>, r: Rows, m: MediaId)
    requires Tables(um, ua, r)
    ensures RowsStep(um, ua, r, DeleteClaimed(r, m))
  {
    var r' := DeleteClaimed(r, m);
    forall n | n in r'.media
      ensures MediaOk(r', n) && MediaEvolves(um, r, r', n)
    {
      assert MediaOk(r, n);
    }
    forall b | b in r'.attempts
      ensures AttemptOk(r', b) && AttemptEvolves(um, ua, r, r', b)
    {
      assert AttemptOk(r, b);
    }
  }

  // ----- Every action keeps the invariant

  lemma PublishingWritesOnce(w: World, w': World, m: MediaId, d: Descriptor)
    requires RegisterOk(w) && m in w.rows.media && w.rows.media[m].displayAsset.None?
    requires w'.rows.media.Keys == w.rows.media.Keys && w'.rows.media[m].displayAsset == Some(d)
    requires forall n | n in w.rows.media && n != m :: w'.rows.media[n] == w.rows.media[n]
    requires w'.register == w.register[m := d] && w'.results == w.results + {(m, d)}
    ensures m !in w.register && RegisterOk(w')
  {
    forall x | x in w'.results
      ensures Recorded(w', x.0, x.1)
    {
      if x in w.results { assert Recorded(w, x.0, x.1); }
    }
  }

  lemma PublishedEvolves(w: World, p: ProcessId, m: MediaId, key: string, a: AttemptId, d: Descriptor, lease: Option<nat>)
    requires Inv(w) && At(w, p) == Uploaded(m, key, a, d, lease) && CanPublishDisplay(w.rows, w.clock, m, key, a)
    ensures var w' := AfterPublish(w, p, m, key, a, d, lease); Evolves(w, w') && RowsOk(w'.rows)
  {
    assert ProcessOk(w, At(w, p));
    PublishDisplayRows(w.usedMedia, w.usedAttempts, w.rows, w.clock, m, key, a, d);
    assert m !in w.register;
  }

  lemma PublishedRecorded(w: World, p: ProcessId, m: MediaId, key: string, a: AttemptId, d: Descriptor, lease: Option<nat>)
    requires RegisterOk(w) && CanPublishDisplay(w.rows, w.clock, m, key, a)
    ensures RegisterOk(AfterPublish(w, p, m, key, a, d, lease))
  {
    PublishingWritesOnce(w, AfterPublish(w, p, m, key, a, d, lease), m, d);
  }

  lemma PublishedStored(w: World, p: ProcessId, m: MediaId, key: string, a: AttemptId, d: Descriptor, lease: Option<nat>)
    requires Inv(w) && At(w, p) == Uploaded(m, key, a, d, lease) && CanPublishDisplay(w.rows, w.clock, m, key, a)
    ensures var w' := AfterPublish(w, p, m, key, a, d, lease);
            NewlyPublishedStored(w, w') && IdsOk(w') && ProcessOk(w', Returned(m, key, lease))
  {
    hide RowsOk, RegisterOk, ObjectsOk, LeasesDistinct;
    assert ProcessOk(w, At(w, p));
    assert Safe(w.rows, a);
  }

  lemma PublishedKeeps(w: World, p: ProcessId, m: MediaId, key: string, a: AttemptId, d: Descriptor, lease: Option<nat>)
    requires Inv(w) && At(w, p) == Uploaded(m, key, a, d, lease) && CanPublishDisplay(w.rows, w.clock, m, key, a)
    ensures var w' := AfterPublish(w, p, m, key, a, d, lease); Inv(w') && Evolves(w, w')
  {
    hide RowsOk, Evolves, RegisterOk, IdsOk, NewlyPublishedStored, ProcessOk, ProcessesOk, LeasesDistinct, ObjectsOk, PublishDisplay;
    PublishedEvolves(w, p, m, key, a, d, lease);
    PublishedStored(w, p, m, key, a, d, lease);
    PublishedRecorded(w, p, m, key, a, d, lease);
    Conclude(w, AfterPublish(w, p, m, key, a, d, lease), p);
  }

  /** A transaction that publishes nothing, run by process `p` or by none. */
  lemma TransactionKeeps(w: World, r': Rows, p: ProcessId, s: Process)
    requires Inv(w) && RowsStep(w.usedMedia, w.usedAttempts, w.rows, r')
    requires r'.media.Keys <= w.rows.media.Keys && r'.attempts.Keys <= w.rows.attempts.Keys
    requires forall m | m in r'.media :: r'.media[m].displayAsset == w.rows.media[m].displayAsset
    requires forall a | a in r'.attempts && r'.attempts[a].status == PUBLISHED :: w.rows.attempts[a].status == PUBLISHED
    requires forall a | a in r'.attempts && r'.attempts[a].cleanupPasses > 0 :: a in w.swept
    requires var w' := WithRows(Become(w, p, s), r');
             ProcessOk(w', s) &&
             (LeaseOf(s).Some? ==> (LeaseOf(s) == LeaseOf(At(w, p)) && MediaOf(s) == MediaOf(At(w, p))) ||
                                   FreshLease(w, MediaOf(s), LeaseOf(s).value))
    ensures var w' := WithRows(Become(w, p, s), r'); Inv(w') && Evolves(w, w')
  {
    var w' := WithRows(Become(w, p, s), r');
    assert RegisterOk(w') by {
      forall x | x in w'.results
        ensures Recorded(w', x.0, x.1)
      {
        assert Recorded(w, x.0, x.1);
      }
    }
    assert Evolves(w, w');
    Conclude(w, w', p);
  }

  /** The same without a process: nothing but the tables changes. */
  lemma TableChangeKeeps(w: World, r': Rows)
    requires Inv(w) && RowsStep(w.usedMedia, w.usedAttempts, w.rows, r')
    requires r'.media.Keys <= w.rows.media.Keys && r'.attempts.Keys <= w.rows.attempts.Keys
    requires forall m | m in r'.media :: r'.media[m].displayAsset == w.rows.media[m].displayAsset
    requires forall a | a in r'.attempts && r'.attempts[a].status == PUBLISHED :: w.rows.attempts[a].status == PUBLISHED
    requires forall a | a in r'.attempts && r'.attempts[a].cleanupPasses > 0 :: a in w.swept
    ensures Inv(WithRows(w, r')) && Evolves(w, WithRows(w, r'))
  {
    var w' := WithRows(w, r');
    assert Evolves(w, w');
    ObjectsStayOk(w, w');
    forall q | q in w'.processes
      ensures ProcessOk(w', w'.processes[q])
    {
      OthersKeep(w, w', w.processes[q]);
    }
  }

  lemma ChangeStatusKeeps(w: World, m: MediaId, from: MediaStatus, to: MediaStatus)
    requires Inv(w)
    ensures var w' := WithRows(w, MoveStatus(w.rows, m, from, to)); Inv(w') && Evolves(w, w')
  {
    MoveStatusRows(w.usedMedia, w.usedAttempts, w.rows, m, from, to);
    TableChangeKeeps(w, MoveStatus(w.rows, m, from, to));
  }

  lemma CompleteWithoutPreviewsKeeps(w: World, m: MediaId)
    requires Inv(w)
    ensures var w' := WithRows(w, CompleteBase(w.rows, m)); Inv(w') && Evolves(w, w')
  {
    CompleteBaseRows(w.usedMedia, w.usedAttempts, w.rows, m);
    TableChangeKeeps(w, CompleteBase(w.rows, m));
  }

  lemma ClaimKeeps(w: World, m: MediaId, seenNow: Time, eligible: bool)
    requires Inv(w)
    ensures var w' := WithRows(w, ClaimDeletion(w.rows, w.clock, seenNow, m, eligible)); Inv(w') && Evolves(w, w')
  {
    ClaimDeletionRows(w.usedMedia, w.usedAttempts, w.rows, w.clock, seenNow, m, eligible);
    TableChangeKeeps(w, ClaimDeletion(w.rows, w.clock, seenNow, m, eligible));
  }

  lemma DeleteRowKeeps(w: World, m: MediaId)
    requires Inv(w)
    ensures var w' := WithRows(w, DeleteClaimed(w.rows, m)); Inv(w') && Evolves(w, w')
  {
    DeleteClaimedRows(w.usedMedia, w.usedAttempts, w.rows, m);
    TableChangeKeeps(w, DeleteClaimed(w.rows, m));
  }

  lemma CreateMediaKeeps(w: World, m: MediaId, key: string)
    requires Inv(w)
    ensures Inv(Step(w, CreateMedia(m, key))) && Evolves(w, Step(w, CreateMedia(m, key)))
  {
    var w' := Step(w, CreateMedia(m, key));
    SameRows(w.usedMedia, w.usedAttempts, w.rows);
    if w' == w { return; }
    CreateMediaRows(w.usedMedia, w.usedAttempts, w.rows, m, key);
    assert Evolves(w, w');
    ObjectsStayOk(w, w');
    forall q | q in w'.processes
      ensures ProcessOk(w', w'.processes[q])
    {
      OthersKeep(w, w', w.processes[q]);
    }
  }

  /** Recording a new attempt and sending its PUTs, for a publisher or a preview stager. */
  lemma RegistrationKeeps(w: World, p: ProcessId, s: Process, a: AttemptId, t: Attempt, puts: set<ObjectKey>)
    requires Inv(w) && FreshAttempt(w, a) && t.status == PENDING && t.cleanupPasses == 0
    requires RowsStep(w.usedMedia, w.usedAttempts, w.rows, SetAttempt(w.rows, a, t))
    requires ProcessOk(Registering(w, p, s, a, t, puts), s)
    requires LeaseOf(s).Some? ==> LeaseOf(s) == LeaseOf(At(w, p)) && MediaOf(s) == MediaOf(At(w, p))
    ensures var w' := Registering(w, p, s, a, t, puts); Inv(w') && Evolves(w, w')
  {
    var w' := Registering(w, p, s, a, t, puts);
    assert Evolves(w, w');
    hide RowsOk, ProcessesOk;
    Conclude(w, w', p);
  }

  function Registering(w: World, p: ProcessId, s: Process, a: AttemptId, t: Attempt, puts: set<ObjectKey>): World {
    WithRows(Become(w, p, s), SetAttempt(w.rows, a, t)).(usedAttempts := w.usedAttempts + {a}, puts := w.puts + puts)
  }

  lemma RegisterKeeps(w: World, p: ProcessId, a: AttemptId)
    requires Inv(w)
    ensures Inv(StepRegister(w, p, a)) && Evolves(w, StepRegister(w, p, a))
  {
    hide RowsOk, ObjectsOk, RegisterOk, LeasesDistinct, RowsEvolve;
    SameRows(w.usedMedia, w.usedAttempts, w.rows);
    match At(w, p)
    case Reading(m, key, None, lease) =>
      if FreshAttempt(w, a) && AcceptsDisplay(w.rows, m, key) {
        assert ProcessOk(w, At(w, p));
        var r' := RegisterDisplay(w.rows, w.clock, m, key, a);
        RegisterDisplayRows(w.usedMedia, w.usedAttempts, w.rows, w.clock, m, key, a);
        assert StepRegister(w, p, a) == Registering(w, p, Registered(m, key, a, lease), a, r'.attempts[a], {DisplayKey(key, a)});
        RegistrationKeeps(w, p, Registered(m, key, a, lease), a, r'.attempts[a], {DisplayKey(key, a)});
      }
    case _ =>
  }

  lemma StageKeeps(w: World, p: ProcessId, a: AttemptId, edges: seq<Edge>, deadline: Time)
    requires Inv(w)
    ensures Inv(StepStage(w, p, a, edges, deadline)) && Evolves(w, StepStage(w, p, a, edges, deadline))
  {
    hide RowsOk, ObjectsOk, RegisterOk, LeasesDistinct, RowsEvolve;
    SameRows(w.usedMedia, w.usedAttempts, w.rows);
    match At(w, p)
    case Displayed(m, key) =>
      if FreshAttempt(w, a) && edges != [] && m in w.rows.media {
        assert ProcessOk(w, At(w, p));
        var keys := PreviewKeys(key, a, edges);
        var r' := RegisterPreview(w.rows, m, a, keys, deadline);
        RegisterPreviewRows(w.usedMedia, w.usedAttempts, w.rows, m, a, keys, deadline);
        assert StepStage(w, p, a, edges, deadline) == Registering(w, p, Staged(m, a, keys), a, r'.attempts[a], Elements(keys));
        RegistrationKeeps(w, p, Staged(m, a, keys), a, r'.attempts[a], Elements(keys));
      }
    case _ =>
  }

  /** Steps that leave the tables alone: the clock, reads, results, and requests taking effect in the object store. */
  lemma StoreStepKeeps(w: World, w': World, p: ProcessId)
    requires Inv(w) && w'.rows == w.rows && w.clock <= w'.clock
    requires w'.usedMedia == w.usedMedia && w'.usedAttempts == w.usedAttempts && w'.register == w.register
    requires w.results <= w'.results && (forall x | x in w'.results && x !in w.results :: Recorded(w, x.0, x.1))
    requires w.swept <= w'.swept
    requires KeepsSafeObjects(w, w') && NewDeletesHarmless(w, w')
    requires forall q | q in w'.processes && q != p :: q in w.processes && w'.processes[q] == w.processes[q]
    requires ProcessOk(w', At(w', p))
    requires LeaseOf(At(w', p)).Some? ==> LeaseOf(At(w', p)) == LeaseOf(At(w, p)) && MediaOf(At(w', p)) == MediaOf(At(w, p))
    ensures Inv(w') && Evolves(w, w')
  {
    SameRows(w.usedMedia, w.usedAttempts, w.rows);
    assert RegisterOk(w') by {
      forall x | x in w'.results
        ensures Recorded(w', x.0, x.1)
      {
        assert Recorded(w, x.0, x.1);
      }
    }
    assert Evolves(w, w');
    hide RowsOk, ProcessesOk, RowsEvolve, RegisterOk;
    Conclude(w, w', p);
  }

  lemma StandStill(w: World)
    requires Inv(w)
    ensures Evolves(w, w)
  {
    SameRows(w.usedMedia, w.usedAttempts, w.rows);
  }

  /** The same when no process acts. */
  lemma AmbientKeeps(w: World, w': World)
    requires Inv(w) && w'.rows == w.rows && w.clock <= w'.clock && w'.processes == w.processes
    requires w'.usedMedia == w.usedMedia && w'.usedAttempts == w.usedAttempts && w'.register == w.register
    requires w.results == w'.results && w.swept == w'.swept
    requires KeepsSafeObjects(w, w') && NewDeletesHarmless(w, w')
    ensures Inv(w') && Evolves(w, w')
  {
    SameRows(w.usedMedia, w.usedAttempts, w.rows);
    assert Evolves(w, w');
    ObjectsStayOk(w, w');
    forall q | q in w'.processes
      ensures ProcessOk(w', w'.processes[q])
    {
      OthersKeep(w, w', w.processes[q]);
    }
  }

  lemma ReadsKeep(w: World, act: Action)
    requires Inv(w) && (act.Tick? || act.ReadMedia? || act.ReadBacklog? || act.SelectForCleanup?)
    ensures Inv(Step(w, act)) && Evolves(w, Step(w, act))
  {
    hide RowsOk, ObjectsOk, LeasesDistinct, RowsEvolve;
    StandStill(w);
    var w' := Step(w, act);
    match act
    case Tick(ms) => AmbientKeeps(w, w');
    case ReadMedia(p, m) =>
      if CanComplete(w.rows, m) { StoreStepKeeps(w, w', p); }
    case ReadBacklog(p, m) =>
      if InBacklog(w.rows, m) { StoreStepKeeps(w, w', p); }
    case SelectForCleanup(p, a) =>
      if w' != w { StoreStepKeeps(w, w', p); }
  }

  lemma ResultsKeep(w: World, act: Action)
    requires Inv(w) && (act.ReturnExisting? || act.AdoptWinner?)
    ensures Inv(Step(w, act)) && Evolves(w, Step(w, act))
  {
    hide RowsOk, ObjectsOk, LeasesDistinct, RowsEvolve;
    StandStill(w);
    var w' := Step(w, act);
    if w' != w {
      var p := act.p;
      assert ProcessOk(w, At(w, p));
      StoreStepKeeps(w, w', p);
    }
  }

  lemma PutsKeep(w: World, act: Action)
    requires Inv(w) && (act.PutLands? || act.StagedPutsLand? || act.LatePut?)
    ensures Inv(Step(w, act)) && Evolves(w, Step(w, act))
  {
    hide RowsOk, ObjectsOk, LeasesDistinct, RowsEvolve;
    StandStill(w);
    var w' := Step(w, act);
    if act.LatePut? {
      AmbientKeeps(w, w');
    } else if w' != w {
      assert ProcessOk(w, At(w, act.p));
      StoreStepKeeps(w, w', act.p);
    }
  }

  lemma DeletesKeep(w: World, act: Action)
    requires Inv(w) && (act.DeletesLand? || act.LateDelete? || act.DeleteObjects?)
    ensures Inv(Step(w, act)) && Evolves(w, Step(w, act))
  {
    hide RowsOk, LeasesDistinct, RowsEvolve;
    StandStill(w);
    var w' := Step(w, act);
    if act.DeletesLand? {
      if w' != w {
        assert ProcessOk(w, At(w, act.p));
        StoreStepKeeps(w, w', act.p);
      }
    } else if act.LateDelete? {
      AmbientKeeps(w, w');
    } else {
      DeleteObjectsHarmless(w, act.m);
      AmbientKeeps(w, w');
    }
  }

  /** The reclaimer asks only for objects whose media it has claimed. */
  lemma DeleteObjectsHarmless(w: World, m: MediaId)
    requires Inv(w)
    ensures NewDeletesHarmless(w, Step(w, DeleteObjects(m)))
  {
    hide Inv, Safe;
    forall k | k in AttemptKeys(w.rows, m)
      ensures Owner(k).Some? && Owner(k).value in w.usedAttempts && Owner(k).value in w.rows.attempts &&
              w.rows.attempts[Owner(k).value].mediaId == m
    {
      var a :| a in w.rows.attempts && w.rows.attempts[a].mediaId == m && k in w.rows.attempts[a].keys;
      OwnerOfKey(w, a, k);
    }
    forall a | a in w.rows.attempts && w.rows.attempts[a].mediaId == m && m in w.rows.media && w.rows.media[m].claimedAt.Some?
      ensures !Safe(w.rows, a)
    {
      ClaimedIsUnsafe(w.rows, a);
    }
  }

  lemma OwnerOfKey(w: World, a: AttemptId, k: ObjectKey)
    requires Inv(w) && a in w.rows.attempts && k in w.rows.attempts[a].keys
    ensures Owner(k) == Some(a) && a in w.usedAttempts
  {
    assert AttemptOk(w.rows, a);
  }

  lemma ClaimedIsUnsafe(r: Rows, a: AttemptId)
    requires a in r.attempts && !Unclaimed(r, r.attempts[a].mediaId)
    ensures !Safe(r, a)
  {
  }

  lemma LeaseKeeps(w: World, p: ProcessId)
    requires Inv(w)
    ensures Inv(StepLease(w, p)) && Evolves(w, StepLease(w, p))
  {
    hide RowsOk, ObjectsOk, RegisterOk, LeasesDistinct, RowsEvolve;
    StandStill(w);
    match At(w, p)
    case Backlog(m, key, seen) =>
      assert ProcessOk(w, At(w, p));
      if CanLease(w.rows, w.clock, m, seen) {
        LeaseDisplayRows(w.usedMedia, w.usedAttempts, w.rows, w.clock, m, seen);
        TransactionKeeps(w, LeaseDisplay(w.rows, w.clock, m, seen), p, Reading(m, key, None, Some(seen + 1)));
      } else {
        StoreStepKeeps(w, Become(w, p, Idle), p);
      }
    case _ =>
  }

  lemma FailKeeps(w: World, p: ProcessId)
    requires Inv(w)
    ensures Inv(StepFail(w, p)) && Evolves(w, StepFail(w, p))
  {
    hide RowsOk, ObjectsOk, RegisterOk, LeasesDistinct, RowsEvolve;
    StandStill(w);
    var s := At(w, p);
    if LeaseOf(s).Some? {
      FailDisplayRows(w.usedMedia, w.usedAttempts, w.rows, MediaOf(s), LeaseOf(s).value);
      TransactionKeeps(w, FailDisplay(w.rows, MediaOf(s), LeaseOf(s).value), p, Idle);
    }
  }

  lemma EndCleanupKeeps(w: World, p: ProcessId)
    requires Inv(w)
    ensures Inv(Step(w, EndCleanup(p))) && Evolves(w, Step(w, EndCleanup(p)))
  {
    hide RowsOk, ObjectsOk, RegisterOk, LeasesDistinct, RowsEvolve;
    StandStill(w);
    assert ProcessOk(w, At(w, p));
    match At(w, p)
    case Removing(a, keys, leaseUntil, passes) =>
      FinishCleanupRows(w.usedMedia, w.usedAttempts, w.rows, w.clock, a, leaseUntil, passes, false);
      TransactionKeeps(w, FinishCleanup(w.rows, w.clock, a, leaseUntil, passes, false), p, Idle);
    case Removed(a, leaseUntil, passes) =>
      FinishCleanupRows(w.usedMedia, w.usedAttempts, w.rows, w.clock, a, leaseUntil, passes, true);
      TransactionKeeps(w, FinishCleanup(w.rows, w.clock, a, leaseUntil, passes, true), p, Idle);
    case _ =>
  }

  lemma ClaimCleanupKeeps(w: World, p: ProcessId)
    requires Inv(w)
    ensures Inv(StepClaimCleanup(w, p)) && Evolves(w, StepClaimCleanup(w, p))
  {
    hide RowsOk, ObjectsOk, RegisterOk, LeasesDistinct, RowsEvolve;
    StandStill(w);
    match At(w, p)
    case Selected(a, keys, status, due, passes) =>
      assert ProcessOk(w, At(w, p));
      var until := w.clock + RETRY_MS;
      if CanLeaseCleanup(w.rows, w.clock, a, status, due) {
        LeaseCleanupRows(w.usedMedia, w.usedAttempts, w.rows, w.clock, a, status, due, until);
        var leased := WithRows(Become(w, p, Removing(a, keys, until, passes)), LeaseCleanup(w.rows, w.clock, a, status, due, until));
        TransactionKeeps(w, LeaseCleanup(w.rows, w.clock, a, status, due, until), p, Removing(a, keys, until, passes));
        // The DELETEs are sent once the claim is committed.
        SendDeletesKeeps(w, leased, a, keys);
      } else {
        StoreStepKeeps(w, Become(w, p, Idle), p);
      }
    case _ =>
  }

  lemma SendDeletesKeeps(w0: World, w: World, a: AttemptId, keys: seq<ObjectKey>)
    requires Inv(w) && Evolves(w0, w) && Cleaning(w, a) && OwnedBy(a, keys)
    ensures var w' := w.(deletes := w.deletes + Elements(keys)); Inv(w') && Evolves(w0, w')
  {
    hide RowsOk, RegisterOk, LeasesDistinct;
    AmbientKeeps(w, w.(deletes := w.deletes + Elements(keys)));
  }

  lemma CompleteKeeps(w: World, p: ProcessId)
    requires Inv(w)
    ensures Inv(Step(w, Complete(p))) && Evolves(w, Step(w, Complete(p)))
  {
    hide RowsOk, RegisterOk, LeasesDistinct, RowsEvolve;
    StandStill(w);
    match At(w, p)
    case StagedUploaded(m, a, keys) =>
      assert ProcessOk(w, At(w, p));
      if CanPublishPreviews(w.rows, w.clock, m, a) {
        CompletePublishes(w, p, m, a, keys);
      } else {
        CompleteBaseRows(w.usedMedia, w.usedAttempts, w.rows, m);
        TransactionKeeps(w, CompleteBase(w.rows, m), p, Idle);
      }
    case _ =>
  }

  lemma CompletePublishes(w: World, p: ProcessId, m: MediaId, a: AttemptId, keys: seq<ObjectKey>)
    requires Inv(w) && At(w, p) == StagedUploaded(m, a, keys) && CanPublishPreviews(w.rows, w.clock, m, a)
    ensures var w' := WithRows(Become(w, p, Idle), CompleteWithPreviews(w.rows, w.clock, m, a, keys));
            Inv(w') && Evolves(w, w')
  {
    var r' := CompleteWithPreviews(w.rows, w.clock, m, a, keys);
    var w' := WithRows(Become(w, p, Idle), r');
    hide RowsOk, ObjectsOk, LeasesDistinct;
    assert ProcessOk(w, At(w, p));
    CompleteWithPreviewsRows(w.usedMedia, w.usedAttempts, w.rows, w.clock, m, a, keys);
    assert NewlyPublishedStored(w, w') by { assert Safe(w.rows, a); }
    PreviewsRecorded(w, w');
    hide RowsEvolve, RegisterOk;
    Conclude(w, w', p);
  }

  /** Preview publication does not touch the display register. */
  lemma PreviewsRecorded(w: World, w': World)
    requires RegisterOk(w) && w'.register == w.register && w'.results == w.results
    requires w'.rows.media.Keys == w.rows.media.Keys
    requires forall m | m in w.rows.media :: w'.rows.media[m].displayAsset == w.rows.media[m].displayAsset
    ensures RegisterOk(w')
  {
    forall x | x in w'.results
      ensures Recorded(w', x.0, x.1)
    {
      assert Recorded(w, x.0, x.1);
    }
  }

  lemma PublishKeeps(w: World, p: ProcessId)
    requires Inv(w)
    ensures Inv(StepPublish(w, p)) && Evolves(w, StepPublish(w, p))
  {
    hide RowsOk, ObjectsOk, RegisterOk, LeasesDistinct, RowsEvolve;
    StandStill(w);
    match At(w, p)
    case Uploaded(m, key, a, d, lease) =>
      if CanPublishDisplay(w.rows, w.clock, m, key, a) {
        PublishedKeeps(w, p, m, key, a, d, lease);
      } else {
        assert ProcessOk(w, At(w, p));
        StoreStepKeeps(w, Become(w, p, Lost(m, key, lease)), p);
      }
    case _ =>
  }

  lemma StepKeeps(w: World, act: Action)
    requires Inv(w)
    ensures Inv(Step(w, act)) && Evolves(w, Step(w, act))
  {
    hide Inv, Evolves;
    match act
    case Tick(_) => ReadsKeep(w, act);
    case ReadMedia(_, _) => ReadsKeep(w, act);
    case ReadBacklog(_, _) => ReadsKeep(w, act);
    case SelectForCleanup(_, _) => ReadsKeep(w, act);
    case CreateMedia(m, key) => CreateMediaKeeps(w, m, key);
    case ChangeStatus(m, from, to) => ChangeStatusKeeps(w, m, from, to);
    case Lease(p) => LeaseKeeps(w, p);
    case Register(p, a) => RegisterKeeps(w, p, a);
    case PutLands(_, _, _) => PutsKeep(w, act);
    case StagedPutsLand(_) => PutsKeep(w, act);
    case LatePut(_) => PutsKeep(w, act);
    case Publish(p) => PublishKeeps(w, p);
    case ReturnExisting(_) => ResultsKeep(w, act);
    case AdoptWinner(_) => ResultsKeep(w, act);
    case Fail(p) => FailKeeps(w, p);
    case Stage(p, a, edges, deadline) => StageKeeps(w, p, a, edges, deadline);
    case Complete(p) => CompleteKeeps(w, p);
    case CompleteWithoutPreviews(m) => CompleteWithoutPreviewsKeeps(w, m);
    case ClaimCleanup(p) => ClaimCleanupKeeps(w, p);
    case DeletesLand(_) => DeletesKeep(w, act);
    case LateDelete(_) => DeletesKeep(w, act);
    case DeleteObjects(_) => DeletesKeep(w, act);
    case EndCleanup(p) => EndCleanupKeeps(w, p);
    case Claim(m, seenNow, eligible) =>
      if seenNow <= w.clock { ClaimKeeps(w, m, seenNow, eligible); } else { StandStill(w); }
    case DeleteRow(m) => DeleteRowKeeps(w, m);
  }
}
