/** What holds of direct conversations in every run. */
module ConversationSafety {
  import opened Options
  import opened ConversationRows
  import opened ConversationProtocol
  import opened ConversationInvariant

  // ----- One step

  lemma WithRowsKeeps(w: World, r': Rows)
    requires Inv(w) && RowsOk(r', w.clock) && RowsEvolve(w.usedMessages, w.rows, r')
    requires r'.conversations.Keys == w.rows.conversations.Keys && r'.messages.Keys <= w.rows.messages.Keys
    ensures Inv(WithRows(w, r'))
  {
    hide RowsOk, RowsEvolve, ProcessOk;
    forall p | p in w.processes
      ensures ProcessOk(r', w.usedMessages, w.processes[p])
    {
      ProcessStays(w.rows, r', w.usedMessages, w.usedMessages, w.processes[p]);
    }
  }

  lemma StoreKeeps(w: World, r': Rows, x: Sent)
    requires Inv(w) && RowsOk(r', w.clock) && RowsEvolve(w.usedMessages, w.rows, r')
    requires r'.messages.Keys <= w.rows.messages.Keys + {x.m} && r'.conversations.Keys <= w.rows.conversations.Keys + {x.c}
    ensures Inv(Store(w, r', x).(usedConversations := w.usedConversations + {x.c}))
    ensures x.c in w.usedConversations ==> Inv(Store(w, r', x))
  {
    hide RowsOk, RowsEvolve, ProcessOk;
    var w' := Store(w, r', x);
    forall p | p in w.processes
      ensures ProcessOk(r', w'.usedMessages, w.processes[p])
    {
      ProcessStays(w.rows, r', w.usedMessages, w'.usedMessages, w.processes[p]);
    }
    assert x.c in w.usedConversations ==> w.usedConversations + {x.c} == w.usedConversations;
  }

  lemma CommittedKeeps(w: World, c: ConversationId, m: MessageId, s: Process)
    requires Inv(w) && ProcessOk(w.rows, w.usedMessages, s)
    ensures Inv(Committed(w, c, m, s)) && RowsEvolve(w.usedMessages, w.rows, Committed(w, c, m, s).rows)
    ensures w.usedMessages <= Committed(w, c, m, s).usedMessages && w.clock <= Committed(w, c, m, s).clock
  {
    hide RowsOk, RowsEvolve, RequestTaken, PairTaken;
    Unchanged(w.rows, w.usedMessages);
    match s
    case Idle =>
    case Creating(sender, recipient, request, accepted) =>
      if c !in w.usedConversations && m !in w.usedMessages && CanCreate(w.rows, sender, recipient, request) {
        CreateKeeps(w.rows, w.clock, c, m, s);
        CreateEvolves(w.rows, w.usedMessages, w.clock, c, m, s);
        StoreKeeps(w, Create(w.rows, w.clock, c, m, sender, recipient, request, accepted), Sent(c, m, sender));
      }
    case Transitioning(c0, seen, sender, recipient, request, next, markRead) =>
      if m !in w.usedMessages && CanTransition(w.rows, c0, seen.status, sender, request) {
        TransitionKeeps(w.rows, w.usedMessages, w.clock, m, s);
        TransitionEvolves(w.rows, w.usedMessages, w.clock, m, s);
        StoreKeeps(w, TransitionAndSend(w.rows, w.clock, c0, seen.status, next, markRead, m, sender, recipient, request),
                   Sent(c0, m, sender));
      }
    case Sending(c0, sender, recipient, request) =>
      if m !in w.usedMessages && CanSend(w.rows, c0, sender, request) {
        SendKeeps(w.rows, w.usedMessages, w.clock, m, s);
        SendEvolves(w.rows, w.usedMessages, w.clock, m, s);
        StoreKeeps(w, SendAccepted(w.rows, w.clock, c0, m, sender, recipient, request), Sent(c0, m, sender));
      }
    case Handling(c0, actor, accept) =>
      HandleKeeps(w.rows, w.clock, c0, actor);
      HandleEvolves(w.rows, w.usedMessages, w.clock, c0, actor);
      WithRowsKeeps(w, if accept then Accept(w.rows, w.clock, c0, actor) else Decline(w.rows, c0, actor));
    case Recalling(c0, m0, sender) =>
      RecallKeeps(w.rows, w.clock, c0, m0, sender);
      RecallEvolves(w.rows, w.usedMessages, w.clock, c0, m0, sender);
      WithRowsKeeps(w, Recall(w.rows, w.clock, c0, m0, sender));
  }

  lemma Unchanged(r: Rows, used: set<MessageId>)
    requires r.messages.Keys <= used
    ensures RowsEvolve(used, r, r)
  {
  }

  lemma RouteOk(r: Rows, used: set<MessageId>, now: Time, c: ConversationId, sender: UserId, recipient: UserId, request: RequestId,
                mutual: bool)
    requires RowsOk(r, now) && c in r.conversations && IsPair(r.conversations[c], sender, recipient) && sender != recipient
    ensures ProcessOk(r, used, Route(c, r.conversations[c], sender, recipient, request, mutual))
  {
    ShapeAt(r, now, c);
  }

  lemma BecomeKeeps(w: World, p: ProcessId, s: Process)
    requires Inv(w) && ProcessOk(w.rows, w.usedMessages, s)
    ensures Inv(Become(w, p, s))
  {
    hide RowsOk, ProcessOk;
  }

  lemma ReadsKeep(w: World, act: Action)
    requires Inv(w) && (act.ReadToInitiate? || act.ReadToSend? || act.ReadToHandle? || act.ReadToRecall?)
    ensures Inv(Step(w, act)) && Step(w, act).rows == w.rows && Step(w, act).usedMessages == w.usedMessages &&
            Step(w, act).clock == w.clock
  {
    hide Inv, RowsOk, PairTaken;
    match act
    case ReadToInitiate(p, sender, recipient, request, existing, mutual) =>
      if sender != recipient && SeesPair(w.rows, sender, recipient, existing) {
        match existing
        case None => BecomeKeeps(w, p, Creating(sender, recipient, request, mutual));
        case Some(c) =>
          assert RowsOk(w.rows, w.clock) by { RowsOfInv(w); }
          RouteOk(w.rows, w.usedMessages, w.clock, c, sender, recipient, request, mutual);
          BecomeKeeps(w, p, Route(c, w.rows.conversations[c], sender, recipient, request, mutual));
      }
    case ReadToSend(p, c, sender, request) =>
      if StepReadToSend(w, p, c, sender, request) != w {
        BecomeKeeps(w, p, Sending(c, sender, Other(w.rows.conversations[c], sender), request));
      }
    case ReadToHandle(p, c, actor, accept) =>
      if CanHandle(w.rows, c, actor) { BecomeKeeps(w, p, Handling(c, actor, accept)); }
    case ReadToRecall(p, m, sender) =>
      if StepReadToRecall(w, p, m, sender) != w {
        RowsOfInv(w);
        MessageAt(w.rows, w.clock, m);
        BecomeKeeps(w, p, Recalling(w.rows.messages[m].conversation, m, sender));
      }
  }

  lemma RowsOfInv(w: World)
    requires Inv(w)
    ensures RowsOk(w.rows, w.clock) && w.rows.messages.Keys <= w.usedMessages
  {
    hide RowsOk, ProcessOk;
  }

  lemma MessageAt(r: Rows, now: Time, m: MessageId)
    requires RowsOk(r, now) && m in r.messages
    ensures MessageOk(r, now, m)
  {
    hide ContentOk, UniqueOk, ShapeOk;
  }

  lemma StepKeeps(w: World, act: Action)
    requires Inv(w)
    ensures Inv(Step(w, act)) && RowsEvolve(w.usedMessages, w.rows, Step(w, act).rows)
    ensures w.usedMessages <= Step(w, act).usedMessages && w.clock <= Step(w, act).clock
  {
    hide RowsOk, RowsEvolve, Inv, ProcessOk, Committed, StepReadToInitiate, StepReadToSend, StepReadToRecall, CanHandle;
    RowsOfInv(w);
    Unchanged(w.rows, w.usedMessages);
    match act
    case Tick(ms) => TickKeeps(w, ms);
    case Commit(p, c, m) =>
      ProcessAt(w, p);
      CommittedKeeps(w, c, m, At(w, p));
      IdleOk(Committed(w, c, m, At(w, p)));
      BecomeKeeps(Committed(w, c, m, At(w, p)), p, Idle);
    case ReadUpTo(c, reader, through) =>
      MarkReadKeeps(w.rows, w.usedMessages, w.clock, c, reader, through);
      WithRowsKeeps(w, MarkRead(w.rows, w.clock, c, reader, through));
    case _ => ReadsKeep(w, act);
  }

  lemma TickKeeps(w: World, ms: nat)
    requires Inv(w)
    ensures Inv(Step(w, Tick(ms)))
  {
    hide RowsOk, ProcessOk;
    LaterRowsOk(w.rows, w.clock, w.clock + ms);
  }

  lemma ProcessAt(w: World, p: ProcessId)
    requires Inv(w)
    ensures ProcessOk(w.rows, w.usedMessages, At(w, p))
  {
    hide RowsOk;
  }

  lemma IdleOk(w: World)
    ensures ProcessOk(w.rows, w.usedMessages, Idle)
  {
  }

  // ----- Whole runs

  lemma EvolveTransitive(used: set<MessageId>, used': set<MessageId>, a: Rows, b: Rows, c: Rows)
    requires RowsEvolve(used, a, b) && RowsEvolve(used', b, c) && used <= used' && a.messages.Keys <= used
    ensures RowsEvolve(used, a, c)
  {
    forall m | Kept(a, m)
      ensures m in c.messages
    {
      assert SeenOk(b, a.messages[m].conversation, a.conversations[a.messages[m].conversation]);
      assert Kept(b, m);
    }
  }

  lemma {:induction false} RunKeeps(w: World, trace: seq<Action>)
    requires Inv(w)
    ensures Inv(Run(w, trace)) && RowsEvolve(w.usedMessages, w.rows, Run(w, trace).rows)
    ensures w.usedMessages <= Run(w, trace).usedMessages && w.clock <= Run(w, trace).clock
  {
    hide Inv, Step, RowsEvolve;
    RowsOfInv(w);
    Unchanged(w.rows, w.usedMessages);
    if trace != [] {
      var front := trace[..|trace| - 1];
      RunKeeps(w, front);
      StepKeeps(Run(w, front), trace[|trace| - 1]);
      EvolveTransitive(w.usedMessages, Run(w, front).usedMessages, w.rows, Run(w, front).rows, Run(w, trace).rows);
    }
  }

  lemma EveryRunKeeps(trace: seq<Action>)
    ensures Inv(Reached(trace))
  {
    assert Inv(EmptyWorld);
    RunKeeps(EmptyWorld, trace);
  }

  // ----- The theorems

  /**
   In every run, a declined or canceled conversation has no message and no last message time; a pending one has
   exactly one message, from its requester to its recipient; and every other one is accepted and has a last message.
   */
  lemma StatusDecidesMessages(trace: seq<Action>, c: ConversationId)
    requires c in Reached(trace).rows.conversations
    ensures var r := Reached(trace).rows;
            match r.conversations[c].status
            case PENDING => exists m :: OnlyRequest(r, c, m) && Newest(r, c, m)
            case ACCEPTED => exists m :: Newest(r, c, m)
            case _ => Empty(r, c) && r.conversations[c].lastMessageAt.None?
  {
    EveryRunKeeps(trace);
    var r := Reached(trace).rows;
    hide Reached;
    assert ContentOk(r, c);
    if r.conversations[c].status == PENDING {
      var m :| OnlyRequest(r, c, m);
      var k :| Newest(r, c, k);
      assert k == m;
    }
  }

  /** Acceptance is final. */
  lemma AcceptedIsFinal(before: seq<Action>, after: seq<Action>, c: ConversationId)
    requires c in Reached(before).rows.conversations && Reached(before).rows.conversations[c].status == ACCEPTED
    ensures var r := Run(Reached(before), after).rows;
            c in r.conversations && r.conversations[c].status == ACCEPTED
  {
    EveryRunKeeps(before);
    RunKeeps(Reached(before), after);
    assert SeenOk(Run(Reached(before), after).rows, c, Reached(before).rows.conversations[c]);
  }

  /** Requester and recipient never swap before acceptance, through any number of declines, cancellations and new requests. */
  lemma RolesHoldUntilAccepted(before: seq<Action>, after: seq<Action>, c: ConversationId)
    requires c in Reached(before).rows.conversations
    ensures var r := Run(Reached(before), after).rows;
            c in r.conversations && SamePair(r.conversations[c], Reached(before).rows.conversations[c]) &&
            (r.conversations[c].status != ACCEPTED ==> SameRoles(r.conversations[c], Reached(before).rows.conversations[c]))
  {
    EveryRunKeeps(before);
    RunKeeps(Reached(before), after);
    assert SeenOk(Run(Reached(before), after).rows, c, Reached(before).rows.conversations[c]);
  }

  /**
   Comparing the status alone is enough: when the update of a stale request takes effect, the row has the pair and
   the roles that were read, however often the status changed in between.
   */
  lemma StatusComparisonIsAbaSafe(trace: seq<Action>, p: ProcessId)
    requires At(Reached(trace), p).Transitioning?
    requires var s := At(Reached(trace), p); CanTransition(Reached(trace).rows, s.c, s.seen.status, s.sender, s.request)
    ensures var s := At(Reached(trace), p);
            var row := Reached(trace).rows.conversations[s.c];
            row.(lastMessageAt := s.seen.lastMessageAt) == s.seen && Between(row, s.sender, s.recipient)
  {
    EveryRunKeeps(trace);
    ProcessAt(Reached(trace), p);
  }

  /** A client request id names at most one stored message of a sender, and a pair has at most one conversation. */
  lemma KeysAreUnique(trace: seq<Action>)
    ensures UniqueOk(Reached(trace).rows)
  {
    EveryRunKeeps(trace);
  }

  /**
   A message of an accepted conversation is never lost, and repeating its client request id finds it: whatever happened
   since, no request of its sender with that id stores anything.
   */
  lemma RetryFindsTheMessage(before: seq<Action>, after: seq<Action>, m: MessageId)
    requires Kept(Reached(before).rows, m)
    ensures var x, r := Reached(before).rows.messages[m], Run(Reached(before), after).rows;
            m in r.messages && SameMessage(x, r.messages[m]) &&
            (forall k | k in r.messages && r.messages[k].sender == x.sender && r.messages[k].request == x.request :: k == m) &&
            RequestTaken(r, x.sender, x.request)
  {
    EveryRunKeeps(before);
    RunKeeps(Reached(before), after);
    RowsOfInv(Reached(before));
    UniqueAt(Run(Reached(before), after));
    hide Reached, Run, UniqueOk;
  }

  lemma UniqueAt(w: World)
    requires Inv(w)
    ensures forall m, k | m in w.rows.messages && k in w.rows.messages && w.rows.messages[m].sender == w.rows.messages[k].sender &&
              w.rows.messages[m].request == w.rows.messages[k].request :: m == k
  {
  }

  // ----- After a decline

  /** The sender of the first message stored in a conversation from position `n` of the history on. */
  function FirstSince(sent: seq<Sent>, n: nat, c: ConversationId): Option<UserId>
    requires n <= |sent|
  {
    if |sent| == n then None
    else
      var earlier := FirstSince(sent[..|sent| - 1], n, c);
      var last := sent[|sent| - 1];
      if earlier.Some? then earlier else if last.c == c then Some(last.sender) else None
  }

  lemma FirstSinceStep(sent: seq<Sent>, n: nat, c: ConversationId, x: Sent)
    requires n <= |sent|
    ensures FirstSince(sent + [x], n, c) ==
            if FirstSince(sent, n, c).Some? then FirstSince(sent, n, c) else if x.c == c then Some(x.sender) else None
  {
    assert (sent + [x])[..|sent|] == sent;
  }

  /** What one step does to a declined conversation: nothing, or a message of the member who declined. */
  ghost predicate StaysDeclined(w: World, w': World, c: ConversationId)
    requires c in w.rows.conversations
  {
    c in w'.rows.conversations &&
    ((w'.sent == w.sent && w'.rows.conversations[c] == w.rows.conversations[c]) ||
     (|w'.sent| == |w.sent| + 1 && w'.sent == w.sent + [w'.sent[|w.sent|]] &&
      var x := w'.sent[|w.sent|];
      if x.c == c then x.sender == w.rows.conversations[c].recipient
      else w'.rows.conversations[c] == w.rows.conversations[c]))
  }

  lemma DeclinedStep(w: World, act: Action, c: ConversationId)
    requires Inv(w) && c in w.rows.conversations && w.rows.conversations[c].status == DECLINED
    ensures StaysDeclined(w, Step(w, act), c)
  {
    hide RowsOk, RequestTaken, PairTaken, Between;
    if act.Commit? {
      var s := At(w, act.p);
      ProcessAt(w, act.p);
      match s
      case Recalling(c0, m0, sender) => RecallLeaves(w.rows, w.clock, c0, m0, sender, c);
      case Handling(c0, actor, accept) =>
      case Transitioning(c0, seen, sender, recipient, request, next, markRead) =>
        if c0 == c && CanTransition(w.rows, c0, seen.status, sender, request) {
          assert sender == w.rows.conversations[c].recipient by {
            DeclinerSends(w.rows, w.clock, c, seen, sender, recipient);
          }
        }
      case _ =>
    }
  }

  lemma DeclinerSends(r: Rows, now: Time, c: ConversationId, seen: Conversation, sender: UserId, recipient: UserId)
    requires RowsOk(r, now) && SeenOk(r, c, seen) && Between(r.conversations[c], sender, recipient)
    requires r.conversations[c].status != ACCEPTED && seen.requester != sender
    ensures sender == r.conversations[c].recipient
  {
    ShapeAt(r, now, c);
  }

  lemma RecallLeaves(r: Rows, now: Time, c: ConversationId, m: MessageId, sender: UserId, d: ConversationId)
    requires d in r.conversations && r.conversations[d].status == DECLINED
    ensures d in Recall(r, now, c, m, sender).conversations && Recall(r, now, c, m, sender).conversations[d] == r.conversations[d]
  {
  }

  lemma {:induction false} DeclinedRun(w: World, trace: seq<Action>, c: ConversationId)
    requires Inv(w) && c in w.rows.conversations && w.rows.conversations[c].status == DECLINED
    ensures var w' := Run(w, trace);
            |w.sent| <= |w'.sent| &&
            match FirstSince(w'.sent, |w.sent|, c)
            case None => c in w'.rows.conversations && w'.rows.conversations[c] == w.rows.conversations[c]
            case Some(sender) => sender == w.rows.conversations[c].recipient
  {
    hide Inv, Step;
    if trace != [] {
      var front := trace[..|trace| - 1];
      DeclinedRun(w, front, c);
      RunKeeps(w, front);
      var v, w' := Run(w, front), Run(w, trace);
      SentGrows(v, trace[|trace| - 1]);
      if w'.sent != v.sent { FirstSinceStep(v.sent, |w.sent|, c, w'.sent[|v.sent|]); }
      if FirstSince(v.sent, |w.sent|, c).None? { DeclinedStep(v, trace[|trace| - 1], c); }
    }
  }

  lemma SentGrows(w: World, act: Action)
    ensures Step(w, act).sent == w.sent ||
            (|Step(w, act).sent| == |w.sent| + 1 && Step(w, act).sent == w.sent + [Step(w, act).sent[|w.sent|]])
  {
    hide RequestTaken, PairTaken, Create, TransitionAndSend, SendAccepted, Accept, Decline, Recall;
  }

  /** After a decline, the next message of the conversation is sent by the member who declined. */
  lemma DeclinerSpeaksFirst(before: seq<Action>, after: seq<Action>, c: ConversationId)
    requires c in Reached(before).rows.conversations && Reached(before).rows.conversations[c].status == DECLINED
    ensures var w, w' := Reached(before), Run(Reached(before), after);
            |w.sent| <= |w'.sent| &&
            match FirstSince(w'.sent, |w.sent|, c)
            case None => c in w'.rows.conversations && w'.rows.conversations[c].status == DECLINED
            case Some(sender) => sender == w.rows.conversations[c].recipient
  {
    EveryRunKeeps(before);
    DeclinedRun(Reached(before), after, c);
  }
}
