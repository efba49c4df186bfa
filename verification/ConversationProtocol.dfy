/**
 Any number of members starting, answering, declining, recalling and sending at once. One action is one atomic step;
 what a request read before its transaction can be stale when the transaction runs, and a request can stop in between.
 */
module ConversationProtocol {
  import opened Options
  import opened ConversationRows

  type ProcessId = nat

  /** What a request remembers between its reads and its transaction. */
  datatype Process =
    | Idle
    | Creating(sender: UserId, recipient: UserId, request: RequestId, accepted: bool)
    | Transitioning(c: ConversationId, seen: Conversation, sender: UserId, recipient: UserId, request: RequestId,
                    next: Status, markRead: bool)
    | Sending(c: ConversationId, sender: UserId, recipient: UserId, request: RequestId)
    | Handling(c: ConversationId, actor: UserId, accept: bool)
    | Recalling(c: ConversationId, m: MessageId, sender: UserId)

  datatype Sent = Sent(c: ConversationId, m: MessageId, sender: UserId)

  /** `usedConversations` and `usedMessages` make identifiers fresh; `sent` records every message ever stored, in order. */
  datatype World = World(
    rows: Rows, clock: Time, processes: map<ProcessId, Process>,
    usedConversations: set<ConversationId>, usedMessages: set<MessageId>, sent: seq<Sent>)

  datatype Action =
    | Tick(ms: nat)
    | ReadToInitiate(p: ProcessId, sender: UserId, recipient: UserId, request: RequestId, existing: Option<ConversationId>,
                     mutual: bool)
    | ReadToSend(p: ProcessId, c: ConversationId, sender: UserId, request: RequestId)
    | ReadToHandle(p: ProcessId, c: ConversationId, actor: UserId, accept: bool)
    | ReadToRecall(p: ProcessId, m: MessageId, sender: UserId)
    | Commit(p: ProcessId, c: ConversationId, m: MessageId)
    | ReadUpTo(c: ConversationId, reader: UserId, through: MessageId)

  const EmptyWorld := World(Rows(map[], map[]), 0, map[], {}, {}, [])

  function At(w: World, p: ProcessId): Process {
    if p in w.processes then w.processes[p] else Idle
  }

  function Become(w: World, p: ProcessId, s: Process): World {
    w.(processes := w.processes[p := s])
  }

  /** What `initiate` does next with the conversation it read; an error ends the request. */
  function Route(c: ConversationId, seen: Conversation, sender: UserId, recipient: UserId, request: RequestId, mutual: bool): Process {
    match seen.status
    case ACCEPTED => Sending(c, sender, recipient, request)
    case PENDING =>
      if seen.requester == sender then Idle else Transitioning(c, seen, sender, recipient, request, ACCEPTED, true)
    case DECLINED =>
      if seen.requester == sender then Idle else Transitioning(c, seen, sender, recipient, request, ACCEPTED, false)
    case CANCELED =>
      var accepted := seen.recipient == sender || mutual;
      Transitioning(c, seen, sender, recipient, request, if accepted then ACCEPTED else PENDING, false)
  }

  predicate SeesPair(r: Rows, sender: UserId, recipient: UserId, existing: Option<ConversationId>) {
    match existing
    case None => !PairTaken(r, sender, recipient)
    case Some(c) => c in r.conversations && IsPair(r.conversations[c], sender, recipient)
  }

  /**
   `initiate` up to its transaction. Its search for a duplicate happens even earlier and may be stale, so it
   restricts nothing here; neither does the mutual-follow check, whose answer is `mutual`.
   */
  function StepReadToInitiate(w: World, p: ProcessId, sender: UserId, recipient: UserId, request: RequestId,
                              existing: Option<ConversationId>, mutual: bool): World {
    if sender == recipient || !SeesPair(w.rows, sender, recipient, existing) then w
    else
      match existing
      case None => Become(w, p, Creating(sender, recipient, request, mutual))
      case Some(c) => Become(w, p, Route(c, w.rows.conversations[c], sender, recipient, request, mutual))
  }

  function StepReadToSend(w: World, p: ProcessId, c: ConversationId, sender: UserId, request: RequestId): World {
    if c in w.rows.conversations && IsParticipant(w.rows.conversations[c], sender) &&
       w.rows.conversations[c].status == ACCEPTED then
      Become(w, p, Sending(c, sender, Other(w.rows.conversations[c], sender), request))
    else w
  }

  function StepReadToRecall(w: World, p: ProcessId, m: MessageId, sender: UserId): World {
    if m in w.rows.messages && w.rows.messages[m].sender == sender && w.rows.messages[m].recalledAt.None? &&
       w.clock <= w.rows.messages[m].createdAt + RECALL_WINDOW_MS then
      Become(w, p, Recalling(w.rows.messages[m].conversation, m, sender))
    else w
  }

  function WithRows(w: World, r: Rows): World { w.(rows := r) }

  function Store(w: World, r: Rows, x: Sent): World {
    w.(rows := r, usedMessages := w.usedMessages + {x.m}, sent := w.sent + [x])
  }

  function CommitCreate(w: World, c: ConversationId, m: MessageId, s: Process): World
    requires s.Creating?
  {
    if c !in w.usedConversations && m !in w.usedMessages && CanCreate(w.rows, s.sender, s.recipient, s.request) then
      Store(w, Create(w.rows, w.clock, c, m, s.sender, s.recipient, s.request, s.accepted), Sent(c, m, s.sender))
        .(usedConversations := w.usedConversations + {c})
    else w
  }

  function CommitTransition(w: World, m: MessageId, s: Process): World
    requires s.Transitioning?
  {
    if m !in w.usedMessages && CanTransition(w.rows, s.c, s.seen.status, s.sender, s.request) then
      Store(w, TransitionAndSend(w.rows, w.clock, s.c, s.seen.status, s.next, s.markRead, m, s.sender, s.recipient, s.request),
            Sent(s.c, m, s.sender))
    else w
  }

  function CommitSend(w: World, m: MessageId, s: Process): World
    requires s.Sending?
  {
    if m !in w.usedMessages && CanSend(w.rows, s.c, s.sender, s.request) then
      Store(w, SendAccepted(w.rows, w.clock, s.c, m, s.sender, s.recipient, s.request), Sent(s.c, m, s.sender))
    else w
  }

  /** The transaction of a request; a guard that fails rolls it back. Either way the request is over. */
  function Committed(w: World, c: ConversationId, m: MessageId, s: Process): World {
    match s
    case Idle => w
    case Creating(_, _, _, _) => CommitCreate(w, c, m, s)
    case Transitioning(_, _, _, _, _, _, _) => CommitTransition(w, m, s)
    case Sending(_, _, _, _) => CommitSend(w, m, s)
    case Handling(c0, actor, accept) =>
      WithRows(w, if accept then Accept(w.rows, w.clock, c0, actor) else Decline(w.rows, c0, actor))
    case Recalling(c0, m0, sender) => WithRows(w, Recall(w.rows, w.clock, c0, m0, sender))
  }

  function Step(w: World, act: Action): World {
    match act
    case Tick(ms) => w.(clock := w.clock + ms)
    case ReadToInitiate(p, sender, recipient, request, existing, mutual) =>
      StepReadToInitiate(w, p, sender, recipient, request, existing, mutual)
    case ReadToSend(p, c, sender, request) => StepReadToSend(w, p, c, sender, request)
    case ReadToHandle(p, c, actor, accept) =>
      if CanHandle(w.rows, c, actor) then Become(w, p, Handling(c, actor, accept)) else w
    case ReadToRecall(p, m, sender) => StepReadToRecall(w, p, m, sender)
    case Commit(p, c, m) => Become(Committed(w, c, m, At(w, p)), p, Idle)
    case ReadUpTo(c, reader, through) => WithRows(w, MarkRead(w.rows, w.clock, c, reader, through))
  }

  function Run(w: World, trace: seq<Action>): World {
    if trace == [] then w else Step(Run(w, trace[..|trace| - 1]), trace[|trace| - 1])
  }

  function Reached(trace: seq<Action>): World { Run(EmptyWorld, trace) }

  // ----- What every step keeps

  ghost predicate Between(c: Conversation, a: UserId, b: UserId) {
    (a == c.first && b == c.second) || (a == c.second && b == c.first)
  }

  ghost predicate ShapeOk(c: Conversation) {
    c.first < c.second && Between(c, c.requester, c.recipient)
  }

  ghost predicate Newest(r: Rows, c: ConversationId, m: MessageId)
    requires c in r.conversations
  {
    m in r.messages && r.messages[m].conversation == c && r.conversations[c].lastMessageAt == Some(r.messages[m].createdAt)
  }

  /** The last message time is the newest time of a stored message. */
  ghost predicate LastMessageOk(r: Rows, c: ConversationId)
    requires c in r.conversations
  {
    r.conversations[c].lastMessageAt.Some? &&
    (forall m | m in r.messages && r.messages[m].conversation == c ::
       r.messages[m].createdAt <= r.conversations[c].lastMessageAt.value) &&
    exists m :: Newest(r, c, m)
  }

  ghost predicate Empty(r: Rows, c: ConversationId) {
    forall m | m in r.messages :: r.messages[m].conversation != c
  }

  /** The conversation has this one message, from its requester to its recipient. */
  ghost predicate OnlyRequest(r: Rows, c: ConversationId, m: MessageId)
    requires c in r.conversations
  {
    m in r.messages && r.messages[m].sender == r.conversations[c].requester &&
    r.messages[m].recipient == r.conversations[c].recipient && r.messages[m].conversation == c &&
    forall k | k in r.messages && r.messages[k].conversation == c :: k == m
  }

  ghost predicate ContentOk(r: Rows, c: ConversationId)
    requires c in r.conversations
  {
    match r.conversations[c].status
    case ACCEPTED => LastMessageOk(r, c)
    case PENDING => LastMessageOk(r, c) && exists m :: OnlyRequest(r, c, m)
    case DECLINED => Empty(r, c) && r.conversations[c].lastMessageAt.None?
    case CANCELED => Empty(r, c) && r.conversations[c].lastMessageAt.None?
  }

  ghost predicate MessageOk(r: Rows, now: Time, m: MessageId)
    requires m in r.messages
  {
    var x := r.messages[m];
    x.conversation in r.conversations && Between(r.conversations[x.conversation], x.sender, x.recipient) && x.createdAt <= now
  }

  ghost predicate SamePair(a: Conversation, b: Conversation) {
    a.first == b.first && a.second == b.second
  }

  ghost predicate UniqueOk(r: Rows) {
    (forall c, d | c in r.conversations && d in r.conversations && SamePair(r.conversations[c], r.conversations[d]) :: c == d) &&
    (forall m, k | m in r.messages && k in r.messages && r.messages[m].sender == r.messages[k].sender &&
       r.messages[m].request == r.messages[k].request :: m == k)
  }

  ghost predicate RowsOk(r: Rows, now: Time) {
    (forall c | c in r.conversations :: ShapeOk(r.conversations[c]) && ContentOk(r, c)) &&
    (forall m | m in r.messages :: MessageOk(r, now, m)) && UniqueOk(r)
  }

  ghost predicate SameRoles(a: Conversation, b: Conversation) {
    a.requester == b.requester && a.recipient == b.recipient
  }

  /** Until it is accepted, a conversation keeps the roles any earlier reader saw. */
  ghost predicate SeenOk(r: Rows, c: ConversationId, seen: Conversation) {
    c in r.conversations && SamePair(r.conversations[c], seen) &&
    (r.conversations[c].status != ACCEPTED ==> seen.status != ACCEPTED && SameRoles(r.conversations[c], seen))
  }

  ghost predicate MemberOk(r: Rows, c: ConversationId, sender: UserId, recipient: UserId) {
    c in r.conversations && Between(r.conversations[c], sender, recipient)
  }

  ghost predicate ProcessOk(r: Rows, used: set<MessageId>, s: Process) {
    match s
    case Idle => true
    case Creating(sender, recipient, _, _) => sender != recipient
    case Transitioning(c, seen, sender, recipient, request, next, markRead) =>
      SeenOk(r, c, seen) && MemberOk(r, c, sender, recipient) && seen.status != ACCEPTED && next in {PENDING, ACCEPTED} &&
      (seen.status != CANCELED ==> seen.requester != sender && next == ACCEPTED) &&
      (next == PENDING ==> seen.requester == sender)
    case Sending(c, sender, recipient, _) => MemberOk(r, c, sender, recipient) && r.conversations[c].status == ACCEPTED
    case Handling(c, actor, _) => c in r.conversations
    case Recalling(c, m, sender) =>
      c in r.conversations && m in used && (m in r.messages ==> r.messages[m].conversation == c)
  }

  ghost predicate Inv(w: World) {
    RowsOk(w.rows, w.clock) && w.rows.conversations.Keys <= w.usedConversations && w.rows.messages.Keys <= w.usedMessages &&
    forall p | p in w.processes :: ProcessOk(w.rows, w.usedMessages, w.processes[p])
  }

  // ----- What no step undoes

  /** The same message up to its read and recall marks. */
  ghost predicate SameMessage(x: Message, x': Message) {
    x' == x.(readAt := x'.readAt, recalledAt := x'.recalledAt)
  }

  /** A message of an accepted conversation. */
  ghost predicate Kept(r: Rows, m: MessageId) {
    m in r.messages && r.messages[m].conversation in r.conversations &&
    r.conversations[r.messages[m].conversation].status == ACCEPTED
  }

  /**
   A conversation stays, with its pair; acceptance is final, and before it the roles do not change. A message changes
   only in its marks, and in an accepted conversation it stays.
   */
  ghost predicate RowsEvolve(used: set<MessageId>, r: Rows, r': Rows) {
    (forall c | c in r.conversations :: SeenOk(r', c, r.conversations[c])) &&
    (forall m | m in r'.messages && m in used :: m in r.messages && SameMessage(r.messages[m], r'.messages[m])) &&
    forall m | Kept(r, m) :: m in r'.messages
  }
}
