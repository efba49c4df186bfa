/** What the media protocol guarantees in every run, whatever the interleaving. */
module MediaSafety {
  import opened Options
  import opened Sequences
  import opened MediaKeys
  import opened MediaRows
  import opened MediaPublication
  import opened MediaInvariant

  function Reached(trace: seq<Action>): World {
    Run(EmptyWorld, trace)
  }

  lemma EvolvesTransitive(w0: World, w1: World, w2: World)
    requires Inv(w0) && Evolves(w0, w1) && Evolves(w1, w2)
    ensures Evolves(w0, w2)
  {
    forall m | m in w2.rows.media
      ensures MediaEvolves(w0.usedMedia, w0.rows, w2.rows, m)
    {
      assert MediaEvolves(w1.usedMedia, w1.rows, w2.rows, m);
      if m in w0.usedMedia { assert MediaEvolves(w0.usedMedia, w0.rows, w1.rows, m); }
    }
    forall a | a in w2.rows.attempts
      ensures AttemptEvolves(w0.usedMedia, w0.usedAttempts, w0.rows, w2.rows, a)
    {
      assert AttemptEvolves(w1.usedMedia, w1.usedAttempts, w1.rows, w2.rows, a);
      var m := w2.rows.attempts[a].mediaId;
      if a in w1.usedAttempts {
        assert AttemptEvolves(w0.usedMedia, w0.usedAttempts, w0.rows, w1.rows, a);
      } else if m in w1.rows.media {
        assert MediaEvolves(w0.usedMedia, w0.rows, w1.rows, m);
      }
    }
    forall m | m in w0.register
      ensures Recorded(w2, m, w0.register[m])
    {
      assert Recorded(w1, m, w0.register[m]);
    }
  }

  lemma {:induction false} RunKeeps(w: World, trace: seq<Action>)
    requires Inv(w)
    ensures Inv(Run(w, trace)) && Evolves(w, Run(w, trace))
    decreases |trace|
  {
    hide Inv, Evolves, Step;
    if trace == [] {
      StandStill(w);
    } else {
      var n := |trace| - 1;
      RunKeeps(w, trace[..n]);
      StepKeeps(Run(w, trace[..n]), trace[n]);
      EvolvesTransitive(w, Run(w, trace[..n]), Run(w, trace));
    }
  }

  lemma EveryRunKeeps(trace: seq<Action>)
    ensures Inv(Reached(trace))
  {
    RunKeeps(EmptyWorld, trace);
  }

  /**
   Every key a media row refers to belongs to a PUBLISHED attempt of that media, and until the media is claimed
   for deletion the object is in the store: no cleaner, late DELETE or reclaimer has removed it.
   */
  lemma ReferencedKeysArePublishedAndStored(trace: seq<Action>, m: MediaId)
    requires m in Reached(trace).rows.media
    ensures var w := Reached(trace);
            var x := w.rows.media[m];
            (x.displayAsset.Some? ==>
               Owner(x.displayAsset.value.key).Some? &&
               Published(w.rows, Owner(x.displayAsset.value.key).value, m, [x.displayAsset.value.key]) &&
               (x.claimedAt.None? ==> x.displayAsset.value.key in w.objects)) &&
            (x.previewVariants.Some? ==>
               x.previewVariants.value != [] && Owner(x.previewVariants.value[0]).Some? &&
               Published(w.rows, Owner(x.previewVariants.value[0]).value, m, x.previewVariants.value) &&
               (x.claimedAt.None? ==> forall k | k in x.previewVariants.value :: k in w.objects))
  {
    EveryRunKeeps(trace);
    var w := Reached(trace);
    var x := w.rows.media[m];
    assert MediaOk(w.rows, m);
    if x.displayAsset.Some? && x.claimedAt.None? {
      var a := x.displayAsset.value.key.attempt;
      assert Safe(w.rows, a) && Stored(w, w.rows.attempts[a].keys);
      assert x.displayAsset.value.key in w.rows.attempts[a].keys;
    }
    if x.previewVariants.Some? && x.claimedAt.None? {
      var a := x.previewVariants.value[0].attempt;
      assert Safe(w.rows, a) && Stored(w, w.rows.attempts[a].keys);
    }
  }

  // ----- Keys as the object store sees them

  ghost predicate ValidKeys(keys: seq<ObjectKey>) {
    forall k | k in keys :: ValidKey(k)
  }

  /** Every key that a DELETE has been sent for, or can still be sent for, is well formed. */
  ghost predicate KeysValid(w: World) {
    (forall a | a in w.rows.attempts :: ValidKeys(w.rows.attempts[a].keys)) &&
    (forall p | p in w.processes && (w.processes[p].Selected? || w.processes[p].Removing?) :: ValidKeys(w.processes[p].keys)) &&
    forall k | k in w.deletes :: ValidKey(k)
  }

  lemma NewAttemptKeysValid(w: World, p: ProcessId, a: AttemptId, edges: seq<Edge>)
    requires Inv(w) && ValidAttemptId(a)
    ensures At(w, p).Reading? && At(w, p).m in w.rows.media ==> ValidKeys([DisplayKey(At(w, p).key, a)])
    ensures At(w, p).Displayed? && At(w, p).m in w.rows.media ==> ValidKeys(PreviewKeys(At(w, p).key, a, edges))
  {
    assert ProcessOk(w, At(w, p));
    if (At(w, p).Reading? || At(w, p).Displayed?) && At(w, p).m in w.rows.media { assert MediaOk(w.rows, At(w, p).m); }
  }

  lemma DeletedKeysValid(w: World, m: MediaId)
    requires Inv(w) && KeysValid(w)
    ensures m in w.rows.media ==> ValidKey(SourceKey(w.rows.media[m].key))
    ensures forall k | k in AttemptKeys(w.rows, m) :: ValidKey(k)
  {
    if m in w.rows.media { assert MediaOk(w.rows, m); }
  }

  lemma KeysStep(w: World, act: Action)
    requires Inv(w) && KeysValid(w)
    ensures KeysValid(Step(w, act))
  {
    hide KeysValid, Step, Inv;
    match act
    case Register(_, _) => NewKeys(w, act);
    case Stage(_, _, _, _) => NewKeys(w, act);
    case DeleteObjects(m) => ReclaimedKeys(w, m);
    case Publish(_) => ExistingKeys(w, act);
    case Complete(_) => ExistingKeys(w, act);
    case SelectForCleanup(_, _) => ExistingKeys(w, act);
    case ClaimCleanup(_) => ExistingKeys(w, act);
    case EndCleanup(_) => WorkersKeepKeys(w, act);
    case Lease(_) => WorkersKeepKeys(w, act);
    case Fail(_) => WorkersKeepKeys(w, act);
    case CreateMedia(_, _) => UploadsKeepKeys(w, act);
    case ChangeStatus(_, _, _) => UploadsKeepKeys(w, act);
    case CompleteWithoutPreviews(_) => UploadsKeepKeys(w, act);
    case Claim(_, _, _) => ReclaimingKeepsKeys(w, act);
    case DeleteRow(_) => ReclaimingKeepsKeys(w, act);
    case _ =>
      if act.Tick? || act.ReadMedia? || act.ReadBacklog? || act.ReturnExisting? || act.AdoptWinner? {
        ReadsKeepKeys(w, act);
      } else {
        ObjectsKeepKeys(w, act);
      }
  }

  lemma NewKeys(w: World, act: Action)
    requires Inv(w) && KeysValid(w) && (act.Register? || act.Stage?)
    ensures KeysValid(Step(w, act))
  {
    if ValidAttemptId(act.a) { NewAttemptKeysValid(w, act.p, act.a, if act.Stage? then act.edges else []); }
    hide Inv, ValidKeys, ValidKey;
  }

  lemma ReclaimedKeys(w: World, m: MediaId)
    requires Inv(w) && KeysValid(w)
    ensures KeysValid(Step(w, DeleteObjects(m)))
  {
    DeletedKeysValid(w, m);
    hide Inv, ValidKeys, ValidKey, AttemptKeys;
  }

  /** Steps that only touch attempts which are there. */
  lemma ExistingKeys(w: World, act: Action)
    requires KeysValid(w) && (act.Publish? || act.Complete? || act.SelectForCleanup? || act.ClaimCleanup?)
    ensures KeysValid(Step(w, act))
  {
    hide ValidKeys, ValidKey, KeysAllowed;
    if act.ClaimCleanup? && At(w, act.p).Selected? { AllValid(At(w, act.p).keys); }
  }

  lemma WorkersKeepKeys(w: World, act: Action)
    requires KeysValid(w) && (act.EndCleanup? || act.Lease? || act.Fail?)
    ensures KeysValid(Step(w, act))
  {
    hide ValidKeys, ValidKey, CleanupDelay, CanLease, HoldsLease;
  }

  lemma UploadsKeepKeys(w: World, act: Action)
    requires KeysValid(w) && (act.CreateMedia? || act.ChangeStatus? || act.CompleteWithoutPreviews?)
    ensures KeysValid(Step(w, act))
  {
    hide ValidKeys, ValidKey, CanComplete;
  }

  lemma ReclaimingKeepsKeys(w: World, act: Action)
    requires KeysValid(w) && (act.Claim? || act.DeleteRow?)
    ensures KeysValid(Step(w, act))
  {
    hide ValidKeys, ValidKey, DeletionAllowed;
  }

  lemma ReadsKeepKeys(w: World, act: Action)
    requires KeysValid(w) && (act.Tick? || act.ReadMedia? || act.ReadBacklog? || act.ReturnExisting? || act.AdoptWinner?)
    ensures KeysValid(Step(w, act))
  {
    hide ValidKeys, ValidKey, AcceptsDisplay, CanComplete, InBacklog;
  }

  lemma ObjectsKeepKeys(w: World, act: Action)
    requires KeysValid(w) && (act.PutLands? || act.LatePut? || act.StagedPutsLand? || act.DeletesLand? || act.LateDelete?)
    ensures KeysValid(Step(w, act))
  {
    hide ValidKeys, ValidKey;
  }

  lemma AllValid(keys: seq<ObjectKey>)
    requires ValidKeys(keys)
    ensures forall k | k in Elements(keys) :: ValidKey(k)
  {
  }

  lemma {:induction false} KeysRun(trace: seq<Action>)
    ensures KeysValid(Reached(trace))
  {
    hide KeysValid, Step, Inv;
    if trace == [] {
      assert KeysValid(EmptyWorld) by { NoKeys(); }
    } else {
      EveryRunKeeps(trace[..|trace| - 1]);
      KeysRun(trace[..|trace| - 1]);
      KeysStep(Reached(trace[..|trace| - 1]), trace[|trace| - 1]);
    }
  }

  lemma NoKeys()
    ensures KeysValid(EmptyWorld)
  {
  }

  /**
   No DELETE ever sent, so none that can land late either, names the object of a key that an unclaimed media row refers
   to: not as a string, which is all the object store sees.
   */
  lemma NoDeleteTargetsReferencedKey(trace: seq<Action>, m: MediaId, k: ObjectKey)
    requires Unclaimed(Reached(trace).rows, m)
    requires var x := Reached(trace).rows.media[m];
             (x.displayAsset.Some? && k == x.displayAsset.value.key) ||
             (x.previewVariants.Some? && k in x.previewVariants.value)
    ensures forall d | d in Reached(trace).deletes :: Render(d) != Render(k)
  {
    EveryRunKeeps(trace);
    var w := Reached(trace);
    assert MediaOk(w.rows, m);
    var x := w.rows.media[m];
    var a := if x.displayAsset.Some? && k == x.displayAsset.value.key then k.attempt else x.previewVariants.value[0].attempt;
    assert AttemptOk(w.rows, a);
    assert k in w.rows.attempts[a].keys;
    assert Safe(w.rows, a);
    KeysRun(trace);
    assert ValidKeys(w.rows.attempts[a].keys);
    forall d | d in w.deletes
      ensures Render(d) != Render(k)
    {
      if Render(d) == Render(k) {
        RenderSeparatesAttempts(d, k);
        assert false;
      }
    }
  }

  /** PUBLISHED and CLEANING are final: an attempt never moves from one to the other, in any continuation of any run. */
  lemma AttemptStatusIsFinal(before: seq<Action>, after: seq<Action>, a: AttemptId)
    requires a in Reached(before).rows.attempts && a in Run(Reached(before), after).rows.attempts
    ensures var t := Reached(before).rows.attempts[a];
            var t' := Run(Reached(before), after).rows.attempts[a];
            t'.mediaId == t.mediaId && t'.keys == t.keys &&
            (t.status == PUBLISHED ==> t'.status == PUBLISHED) && (t.status == CLEANING ==> t'.status == CLEANING)
  {
    EveryRunKeeps(before);
    RunKeeps(Reached(before), after);
    assert AttemptEvolves(Reached(before).usedMedia, Reached(before).usedAttempts,
                          Reached(before).rows, Run(Reached(before), after).rows, a);
  }

  ghost predicate DisplayAttempt(r: Rows, m: MediaId, a: AttemptId) {
    a in r.attempts && r.attempts[a].mediaId == m && r.attempts[a].keys != [] && r.attempts[a].keys[0].DisplayKey?
  }

  ghost predicate PublishedDisplay(r: Rows, m: MediaId, a: AttemptId) {
    DisplayAttempt(r, m, a) && r.attempts[a].status == PUBLISHED
  }

  /** The asset is set iff the display status is READY iff exactly one display attempt of the media is PUBLISHED. */
  lemma ReadyIffOnePublishedAttempt(trace: seq<Action>, m: MediaId)
    requires m in Reached(trace).rows.media
    ensures var r := Reached(trace).rows;
            (r.media[m].displayAsset.Some? <==> r.media[m].displayStatus == DisplayReady) &&
            (r.media[m].displayAsset.Some? <==> exists a :: PublishedDisplay(r, m, a)) &&
            (forall a, b | PublishedDisplay(r, m, a) && PublishedDisplay(r, m, b) :: a == b)
  {
    EveryRunKeeps(trace);
    var r := Reached(trace).rows;
    assert MediaOk(r, m);
    forall a | PublishedDisplay(r, m, a)
      ensures r.media[m].displayAsset.Some? && Owner(r.media[m].displayAsset.value.key) == Some(a)
    {
      assert AttemptOk(r, a);
      assert r.attempts[a].keys[0] in r.attempts[a].keys;
    }
    if r.media[m].displayAsset.Some? {
      assert PublishedDisplay(r, m, r.media[m].displayAsset.value.key.attempt);
    }
  }

  /** The asset is written once: no continuation of a run replaces or clears it. */
  lemma DisplayAssetIsWriteOnce(before: seq<Action>, after: seq<Action>, m: MediaId)
    requires m in Reached(before).rows.media && m in Run(Reached(before), after).rows.media
    requires Reached(before).rows.media[m].displayAsset.Some?
    ensures Run(Reached(before), after).rows.media[m].displayAsset == Reached(before).rows.media[m].displayAsset
  {
    EveryRunKeeps(before);
    RunKeeps(Reached(before), after);
    assert MediaEvolves(Reached(before).usedMedia, Reached(before).rows, Run(Reached(before), after).rows, m);
  }

  /** All calls that return for one media return the same descriptor, and it is the stored one. */
  lemma AllCallersGetTheSameDescriptor(trace: seq<Action>, m: MediaId, d1: Descriptor, d2: Descriptor)
    requires (m, d1) in Reached(trace).results && (m, d2) in Reached(trace).results
    ensures d1 == d2
    ensures m in Reached(trace).rows.media ==> Reached(trace).rows.media[m].displayAsset == Some(d1)
  {
    EveryRunKeeps(trace);
    assert Recorded(Reached(trace), m, d1) && Recorded(Reached(trace), m, d2);
  }

  /**
   Published previews are never erased: a completion without previews, such as the fallback after a commit whose
   outcome is unknown, leaves the tables as they are, and no continuation of the run changes the previews.
   */
  lemma PublishedPreviewsAreKept(before: seq<Action>, after: seq<Action>, m: MediaId)
    requires m in Reached(before).rows.media && Reached(before).rows.media[m].previewVariants.Some?
    ensures CompleteBase(Reached(before).rows, m) == Reached(before).rows
    ensures m in Run(Reached(before), after).rows.media ==>
              Run(Reached(before), after).rows.media[m].previewVariants == Reached(before).rows.media[m].previewVariants
  {
    EveryRunKeeps(before);
    RunKeeps(Reached(before), after);
    assert MediaOk(Reached(before).rows, m);
    if m in Run(Reached(before), after).rows.media {
      assert MediaEvolves(Reached(before).usedMedia, Reached(before).rows, Run(Reached(before), after).rows, m);
    }
  }

  /** After a deletion claim no lease is granted, no asset is published and no display attempt is recorded. */
  lemma ClaimStopsDisplayWork(before: seq<Action>, after: seq<Action>, m: MediaId)
    requires m in Reached(before).rows.media && Reached(before).rows.media[m].claimedAt.Some?
    ensures var w := Reached(before);
            var w' := Run(w, after);
            (m in w'.rows.media ==>
               w'.rows.media[m].claimedAt == w.rows.media[m].claimedAt &&
               w'.rows.media[m].displayAttempts == w.rows.media[m].displayAttempts &&
               w'.rows.media[m].displayAsset == w.rows.media[m].displayAsset) &&
            (forall a | DisplayAttempt(w'.rows, m, a) :: a in w.rows.attempts)
  {
    EveryRunKeeps(before);
    var w := Reached(before);
    RunKeeps(w, after);
    var w' := Run(w, after);
    if m in w'.rows.media { assert MediaEvolves(w.usedMedia, w.rows, w'.rows, m); }
    forall a | DisplayAttempt(w'.rows, m, a)
      ensures a in w.rows.attempts
    {
      assert AttemptEvolves(w.usedMedia, w.usedAttempts, w.rows, w'.rows, a);
    }
  }

  lemma ClaimWasAllowed(w: World, m: MediaId, seenNow: Time, eligible: bool)
    requires Unclaimed(w.rows, m) && !Unclaimed(Step(w, Claim(m, seenNow, eligible)).rows, m)
    ensures m in w.rows.media && DeletionAllowed(w.rows, m, seenNow) && seenNow <= w.clock
  {
    hide DeletionAllowed;
  }

  lemma AllowedMeansSettled(r: Rows, m: MediaId, seenNow: Time)
    requires m in r.media && DeletionAllowed(r, m, seenNow)
    ensures r.media[m].displayStatus == DisplayProcessing && r.media[m].displayStartedAt.Some? ==>
              r.media[m].displayStartedAt.value + LEASE_MS < seenNow
    ensures forall a | a in r.attempts && r.attempts[a].mediaId == m && r.attempts[a].status != PUBLISHED ::
              r.attempts[a].expiresAt + 7 * DAY_MS <= seenNow && r.attempts[a].cleanupPasses > 0
  {
    assert forall a | a in r.attempts && r.attempts[a].mediaId == m && r.attempts[a].status != PUBLISHED :: !Unsettled(r.attempts[a], seenNow);
  }

  lemma RemovedIsSwept(w: World, a: AttemptId)
    requires Inv(w) && a in w.rows.attempts && w.rows.attempts[a].cleanupPasses > 0
    ensures a in w.swept
  {
    hide RowsOk, ObjectsOk, LeasesDistinct, RegisterOk, ProcessOk;
  }

  /**
   When a claim takes effect, no historical lease was granted in the last five minutes, and every unpublished
   attempt expired at least seven days ago and had all its objects removed at least once.
   */
  lemma ClaimFindsAttemptsSettled(trace: seq<Action>, m: MediaId, seenNow: Time, eligible: bool)
    requires Unclaimed(Reached(trace).rows, m)
    requires !Unclaimed(Step(Reached(trace), Claim(m, seenNow, eligible)).rows, m)
    ensures var w := Reached(trace);
            (w.rows.media[m].displayStatus == DisplayProcessing && w.rows.media[m].displayStartedAt.Some? ==>
               w.rows.media[m].displayStartedAt.value + LEASE_MS < w.clock) &&
            (forall a | a in w.rows.attempts && w.rows.attempts[a].mediaId == m && w.rows.attempts[a].status != PUBLISHED ::
               w.rows.attempts[a].expiresAt + 7 * DAY_MS <= w.clock && a in w.swept)
  {
    EveryRunKeeps(trace);
    var w := Reached(trace);
    hide Reached, Inv, Step, DeletionAllowed;
    ClaimWasAllowed(w, m, seenNow, eligible);
    AllowedMeansSettled(w.rows, m, seenNow);
    forall a | a in w.rows.attempts && w.rows.attempts[a].mediaId == m && w.rows.attempts[a].status != PUBLISHED
      ensures w.rows.attempts[a].expiresAt + 7 * DAY_MS <= w.clock && a in w.swept
    {
      RemovedIsSwept(w, a);
    }
  }

  /** At most three leases are granted for a media, and no two processes hold the same one. */
  lemma LeasesAreBoundedAndDistinct(trace: seq<Action>, p: ProcessId, q: ProcessId)
    requires p != q
    ensures var w := Reached(trace);
            (LeaseOf(At(w, p)).Some? && MediaOf(At(w, p)) in w.rows.media ==>
               1 <= LeaseOf(At(w, p)).value <= w.rows.media[MediaOf(At(w, p))].displayAttempts <= MAX_DISPLAY_ATTEMPTS) &&
            (LeaseOf(At(w, p)).Some? && MediaOf(At(w, p)) == MediaOf(At(w, q)) ==> LeaseOf(At(w, p)) != LeaseOf(At(w, q)))
  {
    EveryRunKeeps(trace);
    var w := Reached(trace);
    if LeaseOf(At(w, p)).Some? {
      assert ProcessOk(w, At(w, p));
      if MediaOf(At(w, p)) in w.rows.media { assert MediaOk(w.rows, MediaOf(At(w, p))); }
    }
  }

  /** A lease that was taken over, or whose media has its asset, is no longer held. */
  lemma StaleLease(w: World, p: ProcessId, q: ProcessId)
    requires Inv(w) && LeaseOf(At(w, p)).Some? && MediaOf(At(w, p)) in w.rows.media
    requires w.rows.media[MediaOf(At(w, p))].displayAsset.Some? ||
             (LeaseOf(At(w, q)).Some? && MediaOf(At(w, q)) == MediaOf(At(w, p)) &&
              LeaseOf(At(w, p)).value < LeaseOf(At(w, q)).value)
    ensures !HoldsLease(w.rows, MediaOf(At(w, p)), LeaseOf(At(w, p)).value)
  {
    assert MediaOk(w.rows, MediaOf(At(w, p)));
    if LeaseOf(At(w, q)).Some? { assert ProcessOk(w, At(w, q)); }
  }

  /** A failure recorded by a worker whose lease was taken over, or after publication, changes no row. */
  lemma StaleFailureChangesNothing(trace: seq<Action>, p: ProcessId, q: ProcessId)
    requires var w := Reached(trace);
             LeaseOf(At(w, p)).Some? && MediaOf(At(w, p)) in w.rows.media &&
             (w.rows.media[MediaOf(At(w, p))].displayAsset.Some? ||
              (LeaseOf(At(w, q)).Some? && MediaOf(At(w, q)) == MediaOf(At(w, p)) &&
               LeaseOf(At(w, p)).value < LeaseOf(At(w, q)).value))
    ensures Step(Reached(trace), Fail(p)).rows == Reached(trace).rows
  {
    hide Inv, Reached, HoldsLease, LeaseOf, MediaOf, At;
    EveryRunKeeps(trace);
    StaleLease(Reached(trace), p, q);
  }
}
