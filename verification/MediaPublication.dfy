/**
 Any number of publishers, preview stagers, cleaners and reclaimers over the shared tables and the object store.
 One action is one atomic step of one process. A process can stop between any two of its steps, what it read
 before a transaction can be stale, and a PUT or a DELETE can take effect long after its process gave up.
 */
module MediaPublication {
  import opened Options
  import opened MediaKeys
  import opened MediaRows
  import opened Sequences

  type ProcessId = nat

  /** What a process remembers between two of its steps. */
  datatype Process =
    | Idle
    | Reading(m: MediaId, key: string, asset: Option<Descriptor>, lease: Option<nat>)
    | Backlog(m: MediaId, key: string, seen: nat)
    | Registered(m: MediaId, key: string, a: AttemptId, lease: Option<nat>)
    | Uploaded(m: MediaId, key: string, a: AttemptId, d: Descriptor, lease: Option<nat>)
    | Lost(m: MediaId, key: string, lease: Option<nat>)
    | Displayed(m: MediaId, key: string)
    | Staged(m: MediaId, a: AttemptId, keys: seq<ObjectKey>)
    | StagedUploaded(m: MediaId, a: AttemptId, keys: seq<ObjectKey>)
    | Selected(a: AttemptId, keys: seq<ObjectKey>, status: AttemptStatus, due: Time, passes: nat)
    | Removing(a: AttemptId, keys: seq<ObjectKey>, leaseUntil: Time, passes: nat)
    | Removed(a: AttemptId, leaseUntil: Time, passes: nat)

  /**
   `puts` and `deletes` are the requests ever sent to the object store; each may still take effect.
   `usedMedia` and `usedAttempts` make identifiers fresh. `register`, `results` and `swept` record history:
   the asset each media ever published, the results handed to callers, and the attempts once removed completely.
   */
  datatype World = World(
    rows: Rows, clock: Time, processes: map<ProcessId, Process>,
    objects: set<ObjectKey>, puts: set<ObjectKey>, deletes: set<ObjectKey>,
    usedMedia: set<MediaId>, usedAttempts: set<AttemptId>,
    register: map<MediaId, Descriptor>, results: set<(MediaId, Descriptor)>, swept: set<AttemptId>)

  datatype Action =
    | Tick(ms: nat)
    | CreateMedia(m: MediaId, key: string)
    | ChangeStatus(m: MediaId, from: MediaStatus, to: MediaStatus)
    | ReadMedia(p: ProcessId, m: MediaId)
    | ReadBacklog(p: ProcessId, m: MediaId)
    | Lease(p: ProcessId)
    | Register(p: ProcessId, a: AttemptId)
    | PutLands(p: ProcessId, bytes: nat, frameCount: nat)
    | LatePut(k: ObjectKey)
    | Publish(p: ProcessId)
    | ReturnExisting(p: ProcessId)
    | AdoptWinner(p: ProcessId)
    | Fail(p: ProcessId)
    | Stage(p: ProcessId, a: AttemptId, edges: seq<Edge>, deadline: Time)
    | StagedPutsLand(p: ProcessId)
    | Complete(p: ProcessId)
    | CompleteWithoutPreviews(m: MediaId)
    | SelectForCleanup(p: ProcessId, a: AttemptId)
    | ClaimCleanup(p: ProcessId)
    | DeletesLand(p: ProcessId)
    | LateDelete(k: ObjectKey)
    | EndCleanup(p: ProcessId)
    | Claim(m: MediaId, seenNow: Time, eligible: bool)
    | DeleteObjects(m: MediaId)
    | DeleteRow(m: MediaId)

  const EmptyWorld := World(Rows(map[], map[]), 0, map[], {}, {}, {}, {}, {}, map[], {}, {})

  function At(w: World, p: ProcessId): Process {
    if p in w.processes then w.processes[p] else Idle
  }

  function Become(w: World, p: ProcessId, s: Process): World {
    w.(processes := w.processes[p := s])
  }

  function WithRows(w: World, r: Rows): World { w.(rows := r) }

  function AttemptKeys(r: Rows, m: MediaId): set<ObjectKey> {
    set a, k | a in r.attempts && r.attempts[a].mediaId == m && k in r.attempts[a].keys :: k
  }

  predicate FreshAttempt(w: World, a: AttemptId) {
    ValidAttemptId(a) && a !in w.usedAttempts
  }

  /** A step whose guard fails leaves the world unchanged. */
  function Step(w: World, act: Action): World {
    match act
    case Tick(ms) => w.(clock := w.clock + ms)
    case CreateMedia(m, key) =>
      if m !in w.usedMedia && ValidKey(SourceKey(key)) then
        w.(rows := SetMedia(w.rows, m, NewMedia(key)), usedMedia := w.usedMedia + {m})
      else w
    case ChangeStatus(m, from, to) => WithRows(w, MoveStatus(w.rows, m, from, to))
    case ReadMedia(p, m) =>
      if CanComplete(w.rows, m) then Become(w, p, Reading(m, w.rows.media[m].key, w.rows.media[m].displayAsset, None)) else w
    case ReadBacklog(p, m) =>
      if InBacklog(w.rows, m) then Become(w, p, Backlog(m, w.rows.media[m].key, w.rows.media[m].displayAttempts)) else w
    case Lease(p) => StepLease(w, p)
    case Register(p, a) => StepRegister(w, p, a)
    case PutLands(p, bytes, frameCount) =>
      (match At(w, p)
       case Registered(m, key, a, lease) =>
         var d := Descriptor(DisplayKey(key, a), bytes, frameCount);
         Become(w, p, Uploaded(m, key, a, d, lease)).(objects := w.objects + {d.key})
       case _ => w)
    case LatePut(k) => if k in w.puts then w.(objects := w.objects + {k}) else w
    case Publish(p) => StepPublish(w, p)
    case ReturnExisting(p) =>
      (match At(w, p)
       case Reading(m, key, Some(d), lease) => Become(w, p, Returned(m, key, lease)).(results := w.results + {(m, d)})
       case _ => w)
    case AdoptWinner(p) =>
      (match At(w, p)
       case Lost(m, key, lease) =>
         if m in w.rows.media && AcceptsDisplay(w.rows, m, w.rows.media[m].key) && w.rows.media[m].displayAsset.Some? then
           Become(w, p, Returned(m, key, lease)).(results := w.results + {(m, w.rows.media[m].displayAsset.value)})
         else w
       case _ => w)
    case Fail(p) => StepFail(w, p)
    case Stage(p, a, edges, deadline) => StepStage(w, p, a, edges, deadline)
    case StagedPutsLand(p) =>
      (match At(w, p)
       case Staged(m, a, keys) => Become(w, p, StagedUploaded(m, a, keys)).(objects := w.objects + Elements(keys))
       case _ => w)
    case Complete(p) =>
      (match At(w, p)
       case StagedUploaded(m, a, keys) => WithRows(Become(w, p, Idle), CompleteWithPreviews(w.rows, w.clock, m, a, keys))
       case _ => w)
    case CompleteWithoutPreviews(m) => WithRows(w, CompleteBase(w.rows, m))
    case SelectForCleanup(p, a) =>
      if DueForCleanup(w.rows, a, w.clock) && KeysAllowed(w.rows.media[w.rows.attempts[a].mediaId].key, a, w.rows.attempts[a].keys) then
        var t := w.rows.attempts[a];
        Become(w, p, Selected(a, t.keys, t.status, t.nextCleanupAt, t.cleanupPasses))
      else w
    case ClaimCleanup(p) => StepClaimCleanup(w, p)
    case DeletesLand(p) =>
      (match At(w, p)
       case Removing(a, keys, leaseUntil, passes) =>
         Become(w, p, Removed(a, leaseUntil, passes)).(objects := w.objects - Elements(keys), swept := w.swept + {a})
       case _ => w)
    case LateDelete(k) => if k in w.deletes then w.(objects := w.objects - {k}) else w
    case EndCleanup(p) =>
      (match At(w, p)
       case Removing(a, keys, leaseUntil, passes) =>
         WithRows(Become(w, p, Idle), FinishCleanup(w.rows, w.clock, a, leaseUntil, passes, false))
       case Removed(a, leaseUntil, passes) =>
         WithRows(Become(w, p, Idle), FinishCleanup(w.rows, w.clock, a, leaseUntil, passes, true))
       case _ => w)
    case Claim(m, seenNow, eligible) =>
      if seenNow <= w.clock then WithRows(w, ClaimDeletion(w.rows, w.clock, seenNow, m, eligible)) else w
    case DeleteObjects(m) =>
      if m in w.rows.media && w.rows.media[m].claimedAt.Some? then
        w.(deletes := w.deletes + {SourceKey(w.rows.media[m].key)} + AttemptKeys(w.rows, m))
      else w
    case DeleteRow(m) => WithRows(w, DeleteClaimed(w.rows, m))
  }

  function StepLease(w: World, p: ProcessId): World {
    match At(w, p)
    case Backlog(m, key, seen) =>
      if CanLease(w.rows, w.clock, m, seen) then
        WithRows(Become(w, p, Reading(m, key, None, Some(seen + 1))), LeaseDisplay(w.rows, w.clock, m, seen))
      else Become(w, p, Idle)
    case _ => w
  }

  /** The attempt row is recorded first; the PUT it accounts for is sent only afterwards. */
  function StepRegister(w: World, p: ProcessId, a: AttemptId): World {
    match At(w, p)
    case Reading(m, key, None, lease) =>
      if FreshAttempt(w, a) && AcceptsDisplay(w.rows, m, key) then
        WithRows(Become(w, p, Registered(m, key, a, lease)), RegisterDisplay(w.rows, w.clock, m, key, a))
          .(usedAttempts := w.usedAttempts + {a}, puts := w.puts + {DisplayKey(key, a)})
      else w
    case _ => w
  }

  function StepPublish(w: World, p: ProcessId): World {
    match At(w, p)
    case Uploaded(m, key, a, d, lease) =>
      if CanPublishDisplay(w.rows, w.clock, m, key, a) then
        AfterPublish(w, p, m, key, a, d, lease)
      else Become(w, p, Lost(m, key, lease))
    case _ => w
  }

  /** A caller that has its display goes on to the previews; the historical worker, who holds a lease, is done. */
  function Returned(m: MediaId, key: string, lease: Option<nat>): Process {
    if lease.None? then Displayed(m, key) else Idle
  }

  function AfterPublish(w: World, p: ProcessId, m: MediaId, key: string, a: AttemptId, d: Descriptor, lease: Option<nat>): World {
    WithRows(Become(w, p, Returned(m, key, lease)), PublishDisplay(w.rows, w.clock, m, key, a, d))
      .(register := w.register[m := d], results := w.results + {(m, d)})
  }

  /** The lease a process would write its failure under. */
  function LeaseOf(s: Process): Option<nat> {
    match s
    case Reading(_, _, _, lease) => lease
    case Registered(_, _, _, lease) => lease
    case Uploaded(_, _, _, _, lease) => lease
    case Lost(_, _, lease) => lease
    case _ => None
  }

  function MediaOf(s: Process): MediaId {
    match s
    case Reading(m, _, _, _) => m
    case Registered(m, _, _, _) => m
    case Uploaded(m, _, _, _, _) => m
    case Lost(m, _, _) => m
    case _ => 0
  }

  function StepFail(w: World, p: ProcessId): World {
    var s := At(w, p);
    if LeaseOf(s).Some? then WithRows(Become(w, p, Idle), FailDisplay(w.rows, MediaOf(s), LeaseOf(s).value))
    else w
  }

  function StepStage(w: World, p: ProcessId, a: AttemptId, edges: seq<Edge>, deadline: Time): World {
    match At(w, p)
    case Displayed(m, key) =>
      if FreshAttempt(w, a) && edges != [] && m in w.rows.media then
        var keys := PreviewKeys(key, a, edges);
        WithRows(Become(w, p, Staged(m, a, keys)), RegisterPreview(w.rows, m, a, keys, deadline))
          .(usedAttempts := w.usedAttempts + {a}, puts := w.puts + Elements(keys))
      else w
    case _ => w
  }

  function StepClaimCleanup(w: World, p: ProcessId): World {
    match At(w, p)
    case Selected(a, keys, status, due, passes) =>
      if CanLeaseCleanup(w.rows, w.clock, a, status, due) then
        WithRows(Become(w, p, Removing(a, keys, w.clock + RETRY_MS, passes)),
                 LeaseCleanup(w.rows, w.clock, a, status, due, w.clock + RETRY_MS))
          .(deletes := w.deletes + Elements(keys))
      else Become(w, p, Idle)
    case _ => w
  }

  function Run(w: World, trace: seq<Action>): World {
    if trace == [] then w else Step(Run(w, trace[..|trace| - 1]), trace[|trace| - 1])
  }
}
