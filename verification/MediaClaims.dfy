/** What a deletion claim does not stop: the previews of a process that already has its display. */
module MediaClaims {
  import opened Options
  import opened MediaKeys
  import opened MediaRows
  import opened MediaPublication
  import opened MediaInvariant
  import opened MediaSafety

  /** A process between its display and its previews, or about to return the display it read. */
  predicate MayStage(s: Process, m: MediaId) {
    (s.Displayed? && s.m == m) || (s.Reading? && s.m == m && s.asset.Some? && s.lease.None?)
  }

  ghost predicate Claimed(w: World, m: MediaId) {
    m in w.rows.media && w.rows.media[m].claimedAt.Some?
  }

  /** The attempt is recorded for the media and the PUTs of its objects have been sent. */
  ghost predicate Staging(w: World, m: MediaId, a: AttemptId) {
    a in w.rows.attempts && w.rows.attempts[a].mediaId == m && forall k | k in w.rows.attempts[a].keys :: k in w.puts
  }

  /** The media is claimed or gone, no process may stage its previews, and the attempt is not there. */
  ghost predicate Quiet(w: World, m: MediaId, a: AttemptId) {
    m in w.usedMedia && (m in w.rows.media ==> w.rows.media[m].claimedAt.Some?) &&
    (forall p | p in w.processes :: !MayStage(w.processes[p], m)) &&
    (a in w.rows.attempts ==> w.rows.attempts[a].mediaId != m)
  }

  lemma QuietTables(w: World, act: Action, m: MediaId, a: AttemptId)
    requires Inv(w) && Quiet(w, m, a)
    ensures m in Step(w, act).usedMedia
    ensures m in Step(w, act).rows.media ==> Step(w, act).rows.media[m].claimedAt.Some?
  {
    StepKeeps(w, act);
    hide Step, Inv;
    if m in Step(w, act).rows.media { assert MediaEvolves(w.usedMedia, w.rows, Step(w, act).rows, m); }
  }

  lemma QuietProcesses(w: World, act: Action, m: MediaId, a: AttemptId, p: ProcessId)
    requires Quiet(w, m, a)
    ensures !MayStage(At(Step(w, act), p), m)
  {
    hide FreshAttempt, DueForCleanup, KeysAllowed, CanLeaseCleanup, CompleteBase, CompleteWithPreviews, PublishDisplay, LeaseDisplay,
      FailDisplay, MoveStatus, ClaimDeletion, DeleteClaimed, FinishCleanup, LeaseCleanup, RegisterDisplay, RegisterPreview,
      AttemptKeys, CanLease, InBacklog, Publishable, ValidKey;
    assert !MayStage(At(w, p), m);
  }

  /** The steps that record attempts, or publish them. */
  predicate Records(act: Action) { act.Register? || act.Stage? || act.Publish? || act.Complete? }

  lemma RecordedElsewhere(w: World, act: Action, m: MediaId, a: AttemptId)
    requires Quiet(w, m, a) && Records(act)
    ensures var r := Step(w, act).rows; a in r.attempts ==> r.attempts[a].mediaId != m
  {
    hide ValidAttemptId, PreviewKeys;
    if act.Stage? { assert !MayStage(At(w, act.p), m); }
  }

  lemma NothingRecorded(w: World, act: Action, m: MediaId, a: AttemptId)
    requires Quiet(w, m, a) && !Records(act)
    ensures var r := Step(w, act).rows; a in r.attempts ==> r.attempts[a].mediaId != m
  {
    hide MayStage, DueForCleanup, KeysAllowed, CleanupDelay, DeletionAllowed, AttemptKeys, InBacklog, CanLease, HoldsLease, ValidKey,
      AcceptsDisplay, CanComplete, StatusEdge, Returned, FreshAttempt, RegisterDisplay, RegisterPreview, PublishDisplay,
      CompleteWithPreviews, CanPublishDisplay;
  }

  lemma QuietStep(w: World, act: Action, m: MediaId, a: AttemptId)
    requires Inv(w) && Quiet(w, m, a)
    ensures Quiet(Step(w, act), m, a)
  {
    QuietTables(w, act, m, a);
    if Records(act) { RecordedElsewhere(w, act, m, a); } else { NothingRecorded(w, act, m, a); }
    hide Step, Inv, MayStage;
    forall p | p in Step(w, act).processes
      ensures !MayStage(Step(w, act).processes[p], m)
    {
      QuietProcesses(w, act, m, a, p);
    }
  }

  lemma {:induction false} QuietRun(w: World, after: seq<Action>, m: MediaId, a: AttemptId)
    requires Inv(w) && Quiet(w, m, a)
    ensures Quiet(Run(w, after), m, a)
  {
    hide Inv, Quiet, Step;
    if after != [] {
      var front := after[..|after| - 1];
      QuietRun(w, front, m, a);
      RunKeeps(w, front);
      QuietStep(Run(w, front), after[|after| - 1], m, a);
    }
  }

  lemma Then(w: World, trace: seq<Action>, act: Action) returns (longer: seq<Action>)
    ensures longer == trace + [act] && Run(w, longer) == Step(Run(w, trace), act)
  {
    longer := trace + [act];
    assert longer[..|trace|] == trace;
  }

  lemma NothingRun(w: World)
    ensures Run(w, []) == w
  {
  }

  lemma StagingGoesOn(w: World, p: ProcessId, m: MediaId, a: AttemptId, edge: Edge) returns (after: seq<Action>)
    requires m in w.rows.media && MayStage(At(w, p), m) && FreshAttempt(w, a) && a !in w.rows.attempts
    ensures Staging(Run(w, after), m, a)
  {
    hide Run, ValidAttemptId;
    after := [];
    NothingRun(w);
    if At(w, p).Reading? { after := Then(w, after, ReturnExisting(p)); }
    assert At(Run(w, after), p) == Displayed(m, At(w, p).key) && Run(w, after).rows == w.rows;
    assert FreshAttempt(Run(w, after), a);
    after := Then(w, after, Stage(p, a, [edge], w.clock));
  }

  /**
   After a deletion claim a new attempt of the media can still be recorded and its objects sent exactly when some
   process already has its display and has not staged its previews: only displays look at the claim.
   */
  lemma PreviewsAfterClaimIff(before: seq<Action>, m: MediaId, a: AttemptId)
    requires Claimed(Reached(before), m) && FreshAttempt(Reached(before), a)
    ensures (exists after :: Staging(Run(Reached(before), after), m, a)) <==> exists p :: MayStage(At(Reached(before), p), m)
  {
    EveryRunKeeps(before);
    var w := Reached(before);
    hide Reached, Run;
    assert m in w.usedMedia && a !in w.rows.attempts by { KnownIds(w); }
    hide Inv;
    if p :| MayStage(At(w, p), m) {
      var after := StagingGoesOn(w, p, m, a, Edge480);
    } else {
      assert Quiet(w, m, a) by {
        forall p | p in w.processes
          ensures !MayStage(w.processes[p], m)
        {
          assert At(w, p) == w.processes[p];
        }
      }
      forall after
        ensures !Staging(Run(w, after), m, a)
      {
        QuietRun(w, after, m, a);
      }
    }
  }

  lemma KnownIds(w: World)
    requires Inv(w)
    ensures w.rows.media.Keys <= w.usedMedia && w.rows.attempts.Keys <= w.usedAttempts
  {
  }

  lemma RegisteredRun(m: MediaId, key: string, a: AttemptId) returns (before: seq<Action>)
    requires ValidKey(SourceKey(key)) && ValidAttemptId(a)
    ensures var w := Reached(before);
            At(w, 0) == Registered(m, key, a, None) && w.clock == 0 && w.usedAttempts == {a} &&
            w.rows == RegisterDisplay(SetMedia(Rows(map[], map[]), m, NewMedia(key).(status := PROCESSING)), 0, m, key, a)
  {
    hide Run, ValidAttemptId, ValidKey, RegisterDisplay;
    before := [];
    NothingRun(EmptyWorld);
    before := Then(EmptyWorld, before, CreateMedia(m, key));
    before := Then(EmptyWorld, before, ChangeStatus(m, UPLOADING, PROCESSING));
    assert Reached(before).rows == SetMedia(Rows(map[], map[]), m, NewMedia(key).(status := PROCESSING));
    before := Then(EmptyWorld, before, ReadMedia(0, m));
    assert At(Run(EmptyWorld, before), 0) == Reading(m, key, None, None);
    before := Then(EmptyWorld, before, Register(0, a));
  }

  lemma DisplayedRun(m: MediaId, key: string, a: AttemptId) returns (before: seq<Action>)
    requires ValidKey(SourceKey(key)) && ValidAttemptId(a)
    ensures var w := Reached(before);
            At(w, 0) == Displayed(m, key) && w.clock == 0 && w.usedAttempts == {a} && w.rows.media.Keys == {m} &&
            w.rows.media[m].status == PROCESSING && w.rows.media[m].claimedAt.None? && w.rows.media[m].displayStatus == DisplayReady &&
            forall b | b in w.rows.attempts :: w.rows.attempts[b].status == PUBLISHED
  {
    before := RegisteredRun(m, key, a);
    hide Run, ValidAttemptId, ValidKey, RegisterDisplay, AfterPublish, CanPublishDisplay, PublishDisplay;
    before := Then(EmptyWorld, before, PutLands(0, 1, 1));
    PublishesNext(Reached(before), m, key, a);
    before := Then(EmptyWorld, before, Publish(0));
  }

  lemma PublishesNext(w: World, m: MediaId, key: string, a: AttemptId)
    requires At(w, 0) == Uploaded(m, key, a, Descriptor(DisplayKey(key, a), 1, 1), None) && w.clock == 0
    requires w.rows == RegisterDisplay(SetMedia(Rows(map[], map[]), m, NewMedia(key).(status := PROCESSING)), 0, m, key, a)
    ensures var w' := Step(w, Publish(0));
            At(w', 0) == Displayed(m, key) && w'.clock == 0 && w'.usedAttempts == w.usedAttempts && w'.rows.media.Keys == {m} &&
            w'.rows.media[m].status == PROCESSING && w'.rows.media[m].claimedAt.None? && w'.rows.media[m].displayStatus == DisplayReady &&
            forall b | b in w'.rows.attempts :: w'.rows.attempts[b].status == PUBLISHED
  {
  }

  /** Such runs exist for every media key: the upload fails and is claimed while its worker is between display and previews. */
  lemma ClaimMeetsStager(m: MediaId, key: string, a: AttemptId, b: AttemptId) returns (before: seq<Action>)
    requires ValidKey(SourceKey(key)) && ValidAttemptId(a) && ValidAttemptId(b) && a != b
    ensures Claimed(Reached(before), m) && FreshAttempt(Reached(before), b) && MayStage(At(Reached(before), 0), m)
  {
    before := DisplayedRun(m, key, a);
    hide Run, ValidAttemptId, ValidKey;
    before := Then(EmptyWorld, before, ChangeStatus(m, PROCESSING, FAILED));
    before := Then(EmptyWorld, before, Claim(m, 0, true));
  }
}
