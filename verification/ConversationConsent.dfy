/**
 When a conversation is accepted: never without consent. The history that shows it is the run itself: the answers of the
 mutual-follow reads, the acceptances that took effect, and the messages that were stored.
 */
module ConversationConsent {
  import opened Options
  import opened ConversationRows
  import opened ConversationEffects
  import opened ConversationProtocol
  import opened ConversationInvariant
  import opened ConversationSafety

  // ----- What initiating does with what it read

  /** Without a conversation, the request to create one carries the answer of the mutual-follow read. */
  lemma NewInitiation(w: World, p: ProcessId, sender: UserId, recipient: UserId, request: RequestId, mutual: bool)
    requires sender != recipient
    requires forall c | c in w.rows.conversations :: !Between(w.rows.conversations[c], sender, recipient)
    ensures At(Step(w, ReadToInitiate(p, sender, recipient, request, None, mutual)), p) ==
            Creating(sender, recipient, request, mutual)
  {
  }

  /**
   With one, its status and its requester decide: an accepted one just takes the message; an unanswered or declined
   request is answered by its recipient alone, which accepts it; a canceled one is accepted when its former recipient
   writes or the members follow each other, and pending again otherwise.
   */
  lemma KnownInitiation(w: World, p: ProcessId, sender: UserId, recipient: UserId, request: RequestId, c: ConversationId, mutual: bool)
    requires sender != recipient && c in w.rows.conversations && Between(w.rows.conversations[c], sender, recipient)
    requires w.rows.conversations[c].first < w.rows.conversations[c].second
    ensures var x := w.rows.conversations[c];
            var s := At(Step(w, ReadToInitiate(p, sender, recipient, request, Some(c), mutual)), p);
            (x.status == ACCEPTED ==> s == Sending(c, sender, recipient, request)) &&
            (x.status == PENDING || x.status == DECLINED ==>
               s == if x.requester == sender then Idle
                    else Transitioning(c, x, sender, recipient, request, ACCEPTED, x.status == PENDING)) &&
            (x.status == CANCELED ==>
               s == Transitioning(c, x, sender, recipient, request,
                                  if x.recipient == sender || mutual then ACCEPTED else PENDING, false))
  {
  }

  /** What the transaction of each request does, and when. */
  lemma CommitEffects(w: World, p: ProcessId, c: ConversationId, m: MessageId)
    requires c !in w.usedConversations && m !in w.usedMessages
    ensures var r, r' := w.rows, Step(w, Commit(p, c, m)).rows;
            match At(w, p)
            case Idle => r' == r
            case Creating(sender, recipient, request, mutual) => Creates(r, r', w.clock, c, m, sender, recipient, request, mutual)
            case Transitioning(d, seen, sender, recipient, request, next, markRead) =>
              MovesOn(r, r', w.clock, d, seen.status, next, markRead, m, sender, recipient, request)
            case Sending(d, sender, recipient, request) => Sends(r, r', w.clock, d, m, sender, recipient, request)
            case Handling(d, actor, accept) => if accept then Accepts(r, r', w.clock, d, actor) else Declines(r, r', d, actor)
            case Recalling(d, k, sender) => Recalls(r, r', w.clock, d, k, sender)
  {
    match At(w, p)
    case Idle =>
    case Creating(sender, recipient, request, mutual) => CreationEffect(w.rows, w.clock, c, m, sender, recipient, request, mutual);
    case Transitioning(d, seen, sender, recipient, request, next, markRead) =>
      TransitionEffect(w.rows, w.clock, d, seen.status, next, markRead, m, sender, recipient, request);
    case Sending(d, sender, recipient, request) => SendEffect(w.rows, w.clock, d, m, sender, recipient, request);
    case Handling(d, actor, accept) => HandlingEffects(w.rows, w.clock, d, actor);
    case Recalling(d, k, sender) => RecallEffect(w.rows, w.clock, d, k, sender);
    hide Creates, MovesOn, Sends, Accepts, Declines, Recalls, RequestTaken, PairTaken;
  }

  /** The other reads: who may send, answer and recall, and for how long. */
  lemma ReadEffects(w: World, p: ProcessId, c: ConversationId, m: MessageId, user: UserId, request: RequestId, accept: bool)
    ensures var w' := Step(w, ReadToSend(p, c, user, request));
            if c in w.rows.conversations && w.rows.conversations[c].status == ACCEPTED &&
               (w.rows.conversations[c].first == user || w.rows.conversations[c].second == user)
            then At(w', p) == Sending(c, user, if w.rows.conversations[c].first == user then w.rows.conversations[c].second
                                               else w.rows.conversations[c].first, request)
            else w' == w
    ensures var w' := Step(w, ReadToHandle(p, c, user, accept));
            if c in w.rows.conversations && w.rows.conversations[c].status == PENDING && w.rows.conversations[c].recipient == user
            then At(w', p) == Handling(c, user, accept) else w' == w
    ensures var w' := Step(w, ReadToRecall(p, m, user));
            if m in w.rows.messages && w.rows.messages[m].sender == user && w.rows.messages[m].recalledAt.None? &&
               w.clock <= w.rows.messages[m].createdAt + 600_000
            then At(w', p) == Recalling(w.rows.messages[m].conversation, m, user) else w' == w
  {
  }

  // ----- Consent

  ghost predicate MutualRead(trace: seq<Action>, a: UserId, b: UserId) {
    exists i :: 0 <= i < |trace| && SaysMutual(trace[i], a, b)
  }

  predicate SaysMutual(act: Action, a: UserId, b: UserId) {
    act.ReadToInitiate? && act.mutual && ((act.sender == a && act.recipient == b) || (act.sender == b && act.recipient == a))
  }

  /** An acceptance by the recipient of the pending request that took effect. */
  ghost predicate Acceptance(w: World, act: Action, c: ConversationId) {
    act.Commit? && At(w, act.p).Handling? && At(w, act.p).c == c && At(w, act.p).accept && c in w.rows.conversations &&
    w.rows.conversations[c].status == PENDING && w.rows.conversations[c].recipient == At(w, act.p).actor
  }

  ghost predicate AcceptanceRead(trace: seq<Action>, c: ConversationId) {
    exists i :: 0 <= i < |trace| && Acceptance(Reached(trace[..i]), trace[i], c)
  }

  /** Somebody other than the member who wrote first has written. */
  ghost predicate Answered(sent: seq<Sent>, c: ConversationId) {
    exists i :: 0 <= i < |sent| && sent[i].c == c && FirstSince(sent, 0, c) != Some(sent[i].sender)
  }

  ghost predicate Consent(trace: seq<Action>, c: ConversationId)
    requires c in Reached(trace).rows.conversations
  {
    MutualRead(trace, Reached(trace).rows.conversations[c].first, Reached(trace).rows.conversations[c].second) ||
    AcceptanceRead(trace, c) || Answered(Reached(trace).sent, c)
  }

  // ----- What every step keeps

  /** The first message of a conversation is by its requester until it is accepted. */
  ghost predicate FirstOk(w: World, c: ConversationId)
    requires c in w.rows.conversations
  {
    FirstSince(w.sent, 0, c).Some? &&
    (w.rows.conversations[c].status != ACCEPTED ==> FirstSince(w.sent, 0, c) == Some(w.rows.conversations[c].requester))
  }

  /** A request that would accept at once has a mutual read behind it, or comes from the recipient it read. */
  ghost predicate Entitled(trace: seq<Action>, s: Process) {
    match s
    case Creating(sender, recipient, _, mutual) => mutual ==> MutualRead(trace, sender, recipient)
    case Transitioning(_, seen, sender, recipient, _, next, _) =>
      next == ACCEPTED ==> seen.requester != sender || MutualRead(trace, sender, recipient)
    case _ => true
  }

  ghost predicate ConsentOk(trace: seq<Action>) {
    var w := Reached(trace);
    (forall c | c in w.rows.conversations :: FirstOk(w, c) && (w.rows.conversations[c].status == ACCEPTED ==> Consent(trace, c))) &&
    (forall p | p in w.processes :: Entitled(trace, w.processes[p])) &&
    forall i | 0 <= i < |w.sent| :: w.sent[i].c in w.usedConversations
  }

  lemma LongerRun(trace: seq<Action>, act: Action)
    ensures Reached(trace + [act]) == Step(Reached(trace), act)
  {
    assert (trace + [act])[..|trace|] == trace;
  }

  lemma ReadsStay(trace: seq<Action>, act: Action, a: UserId, b: UserId, c: ConversationId)
    ensures MutualRead(trace, a, b) ==> MutualRead(trace + [act], a, b)
    ensures SaysMutual(act, a, b) ==> MutualRead(trace + [act], a, b)
    ensures AcceptanceRead(trace, c) ==> AcceptanceRead(trace + [act], c)
    ensures Acceptance(Reached(trace), act, c) ==> AcceptanceRead(trace + [act], c)
  {
    hide Reached, SaysMutual, Acceptance;
    var longer := trace + [act];
    if MutualRead(trace, a, b) {
      var i :| 0 <= i < |trace| && SaysMutual(trace[i], a, b);
      assert longer[i] == trace[i];
    }
    assert longer[|trace|] == act && longer[..|trace|] == trace;
    if AcceptanceRead(trace, c) {
      var i :| 0 <= i < |trace| && Acceptance(Reached(trace[..i]), trace[i], c);
      assert longer[..i] == trace[..i] && longer[i] == trace[i];
    }
  }

  lemma SymmetricRead(trace: seq<Action>, a: UserId, b: UserId)
    ensures MutualRead(trace, a, b) <==> MutualRead(trace, b, a)
  {
    assert forall act: Action :: SaysMutual(act, a, b) <==> SaysMutual(act, b, a);
  }

  lemma {:induction false} FirstSinceMissing(sent: seq<Sent>, c: ConversationId)
    requires forall i | 0 <= i < |sent| :: sent[i].c != c
    ensures FirstSince(sent, 0, c) == None
  {
    if sent != [] { FirstSinceMissing(sent[..|sent| - 1], c); }
  }

  lemma AnswersStay(sent: seq<Sent>, x: Sent, c: ConversationId)
    requires FirstSince(sent, 0, c).Some?
    ensures FirstSince(sent + [x], 0, c) == FirstSince(sent, 0, c)
    ensures Answered(sent, c) ==> Answered(sent + [x], c)
    ensures x.c == c && Some(x.sender) != FirstSince(sent, 0, c) ==> Answered(sent + [x], c)
  {
    FirstSinceStep(sent, 0, c, x);
    hide FirstSince;
    if Answered(sent, c) {
      var i :| 0 <= i < |sent| && sent[i].c == c && FirstSince(sent, 0, c) != Some(sent[i].sender);
      assert (sent + [x])[i] == sent[i];
    }
    assert (sent + [x])[|sent|] == x;
  }

  /** What a step stores, and for whom. */
  lemma StoredBy(w: World, act: Action)
    requires Inv(w)
    ensures var w' := Step(w, act);
            w'.sent == w.sent ||
            (|w'.sent| == |w.sent| + 1 && w'.sent == w.sent + [w'.sent[|w.sent|]] && w'.sent[|w.sent|].c in w'.usedConversations)
    ensures w.usedConversations <= Step(w, act).usedConversations
  {
    hide RowsOk, RequestTaken, PairTaken, Create, TransitionAndSend, SendAccepted, Accept, Decline, Recall, Route;
    if act.Commit? { ProcessAt(w, act.p); }
  }

  /** How a conversation that is there can become accepted. */
  lemma BecomesAccepted(w: World, act: Action, c: ConversationId)
    requires Inv(w) && c in w.rows.conversations && w.rows.conversations[c].status != ACCEPTED
    requires c in Step(w, act).rows.conversations && Step(w, act).rows.conversations[c].status == ACCEPTED
    ensures act.Commit?
    ensures var s, w' := At(w, act.p), Step(w, act);
            Acceptance(w, act, c) ||
            (s.Transitioning? && s.c == c && s.next == ACCEPTED && Between(w.rows.conversations[c], s.sender, s.recipient) &&
             w.rows.conversations[c].requester == s.seen.requester && w'.sent == w.sent + [Sent(c, act.m, s.sender)])
  {
    hide RowsOk, RequestTaken, PairTaken, Route;
    if act.Commit? { ProcessAt(w, act.p); }
  }

  /** How a conversation appears. */
  lemma Appears(w: World, act: Action, c: ConversationId)
    requires Inv(w) && c !in w.rows.conversations && c in Step(w, act).rows.conversations
    ensures act.Commit? && c !in w.usedConversations
    ensures var s, w' := At(w, act.p), Step(w, act);
            s.Creating? && w'.sent == w.sent + [Sent(c, act.m, s.sender)] && w'.rows.conversations[c].requester == s.sender &&
            Between(w'.rows.conversations[c], s.sender, s.recipient) && (w'.rows.conversations[c].status == ACCEPTED <==> s.accepted)
  {
    hide RowsOk, RequestTaken, PairTaken, Route;
  }

  /** Only a process's own read for an initiation makes it a creator or a transition. */
  lemma ProcessAfter(w: World, act: Action, p: ProcessId)
    ensures var s := At(Step(w, act), p);
            s == At(w, p) || (!s.Creating? && !s.Transitioning?) ||
            (act.ReadToInitiate? && act.p == p &&
             s == At(StepReadToInitiate(w, p, act.sender, act.recipient, act.request, act.existing, act.mutual), p))
  {
    hide PairTaken, RequestTaken, Create, TransitionAndSend, SendAccepted, Accept, Decline, Recall, StepReadToInitiate, MarkRead;
    if act.ReadToInitiate? && act.p != p { OtherProcess(w, act, p); }
  }

  lemma OtherProcess(w: World, act: Action, p: ProcessId)
    requires act.ReadToInitiate? && act.p != p
    ensures At(Step(w, act), p) == At(w, p)
  {
  }

  lemma StillEntitled(trace: seq<Action>, act: Action, s: Process)
    requires Entitled(trace, s)
    ensures Entitled(trace + [act], s)
  {
    hide MutualRead;
    if s.Creating? || s.Transitioning? { ReadsStay(trace, act, s.sender, s.recipient, 0); }
  }

  /** What a read for an initiation makes of a process is backed by that read. */
  lemma ReadIsEntitled(trace: seq<Action>, act: Action, p: ProcessId)
    requires Inv(Reached(trace)) && act.ReadToInitiate?
    ensures var s := At(StepReadToInitiate(Reached(trace), p, act.sender, act.recipient, act.request, act.existing, act.mutual), p);
            s == At(Reached(trace), p) || Entitled(trace + [act], s)
  {
    var w := Reached(trace);
    hide Reached;
    if act.existing.Some? && act.existing.value in w.rows.conversations { ShapeAt(w.rows, w.clock, act.existing.value); }
    ReadsStay(trace, act, act.sender, act.recipient, 0);
    hide Inv, Step, MutualRead, PairTaken, IsPair;
  }

  lemma EntitledStays(trace: seq<Action>, act: Action, p: ProcessId)
    requires Inv(Reached(trace)) && Entitled(trace, At(Reached(trace), p))
    ensures Entitled(trace + [act], At(Step(Reached(trace), act), p))
  {
    hide Reached, Step, Inv, StepReadToInitiate, MutualRead;
    ProcessAfter(Reached(trace), act, p);
    StillEntitled(trace, act, At(Reached(trace), p));
    if act.ReadToInitiate? { ReadIsEntitled(trace, act, p); }
  }

  lemma PairStays(w: World, act: Action, c: ConversationId)
    requires Inv(w) && c in w.rows.conversations
    ensures SeenOk(Step(w, act).rows, c, w.rows.conversations[c])
  {
    StepKeeps(w, act);
    hide Inv, Step, SeenOk;
  }

  lemma OldConversation(trace: seq<Action>, act: Action, c: ConversationId)
    requires Inv(Reached(trace)) && ConsentOk(trace) && c in Reached(trace).rows.conversations
    ensures c in Step(Reached(trace), act).rows.conversations && FirstOk(Step(Reached(trace), act), c)
    ensures Step(Reached(trace), act).rows.conversations[c].status == ACCEPTED ==>
              c in Reached(trace + [act]).rows.conversations && Consent(trace + [act], c)
  {
    var w := Reached(trace);
    LongerRun(trace, act);
    PairStays(w, act, c);
    StoredBy(w, act);
    hide Inv;
    var w' := Step(w, act);
    assert FirstOk(w, c);
    var x := w.rows.conversations[c];
    ReadsStay(trace, act, x.first, x.second, c);
    if w'.sent != w.sent { AnswersStay(w.sent, w'.sent[|w.sent|], c); }
    if w'.rows.conversations[c].status == ACCEPTED && x.status != ACCEPTED {
      BecomesAccepted(w, act, c);
      if !Acceptance(w, act, c) {
        var s := At(w, act.p);
        assert Entitled(trace, s);
        SymmetricRead(trace, s.sender, s.recipient);
        if s.seen.requester != s.sender { AnswersStay(w.sent, Sent(c, act.m, s.sender), c); }
      }
    }
    hide Reached, Step, MutualRead, AcceptanceRead, Answered, FirstSince, Acceptance;
  }

  lemma NewConversation(trace: seq<Action>, act: Action, c: ConversationId)
    requires Inv(Reached(trace)) && ConsentOk(trace)
    requires c !in Reached(trace).rows.conversations && c in Step(Reached(trace), act).rows.conversations
    ensures FirstOk(Step(Reached(trace), act), c)
    ensures Step(Reached(trace), act).rows.conversations[c].status == ACCEPTED ==>
              c in Reached(trace + [act]).rows.conversations && Consent(trace + [act], c)
  {
    var w := Reached(trace);
    LongerRun(trace, act);
    Appears(w, act, c);
    var s := At(w, act.p);
    assert Entitled(trace, s);
    ReadsStay(trace, act, s.sender, s.recipient, c);
    SymmetricRead(trace + [act], s.sender, s.recipient);
    FirstSinceMissing(w.sent, c);
    FirstSinceStep(w.sent, 0, c, Sent(c, act.m, s.sender));
    hide Reached, Step, MutualRead, AcceptanceRead, Answered, FirstSince, Inv;
  }

  lemma ConsentStep(trace: seq<Action>, act: Action)
    requires Inv(Reached(trace)) && ConsentOk(trace)
    ensures ConsentOk(trace + [act])
  {
    var w, w' := Reached(trace), Step(Reached(trace), act);
    LongerRun(trace, act);
    StoredBy(w, act);
    forall p | p in w'.processes
      ensures Entitled(trace + [act], w'.processes[p])
    {
      EntitledStays(trace, act, p);
    }
    hide Inv, Step, Entitled, FirstOk, Consent;
    forall c | c in w'.rows.conversations
      ensures FirstOk(w', c) && (w'.rows.conversations[c].status == ACCEPTED ==> Consent(trace + [act], c))
    {
      if c in w.rows.conversations { OldConversation(trace, act, c); } else { NewConversation(trace, act, c); }
    }
  }

  lemma {:induction false} ConsentRun(trace: seq<Action>)
    ensures ConsentOk(trace)
  {
    if trace == [] {
      assert Reached(trace) == EmptyWorld;
    } else {
      var front := trace[..|trace| - 1];
      ConsentRun(front);
      EveryRunKeeps(front);
      ConsentStep(front, trace[|trace| - 1]);
      assert trace == front + [trace[|trace| - 1]];
    }
  }

  /**
   In every run, a conversation is accepted only with consent: the members followed each other when one of them wrote,
   or the recipient of the pending request accepted it, or somebody other than the one who wrote first has written.
   */
  lemma AcceptedOnlyWithConsent(trace: seq<Action>, c: ConversationId)
    requires c in Reached(trace).rows.conversations && Reached(trace).rows.conversations[c].status == ACCEPTED
    ensures Consent(trace, c)
  {
    ConsentRun(trace);
  }

  /**
   A request that reaches a stranger stays a request: without consent the conversation is pending, declined or
   canceled, and the member who wrote first is its requester.
   */
  lemma WithoutConsentStillARequest(trace: seq<Action>, c: ConversationId)
    requires c in Reached(trace).rows.conversations && !Consent(trace, c)
    ensures var x := Reached(trace).rows.conversations[c];
            x.status != ACCEPTED && FirstSince(Reached(trace).sent, 0, c) == Some(x.requester)
  {
    ConsentRun(trace);
    assert FirstOk(Reached(trace), c);
  }
}
