/**
 Direct conversations and messages, and the transactions that change them. Each transaction is one atomic step:
 a function gives the tables after it, and `ConversationDatabase` carries it out in place.
 */
module ConversationRows {
  import opened Options

  type UserId = nat
  type ConversationId = nat
  type MessageId = nat
  type RequestId = nat
  type Time = nat

  const RECALL_WINDOW_MS: nat := 10 * 60 * 1000

  datatype Status = PENDING | ACCEPTED | DECLINED | CANCELED

  datatype Conversation = Conversation(
    first: UserId, second: UserId, requester: UserId, recipient: UserId, status: Status, lastMessageAt: Option<Time>)

  datatype Message = Message(
    conversation: ConversationId, sender: UserId, recipient: UserId, request: RequestId,
    createdAt: Time, readAt: Option<Time>, recalledAt: Option<Time>)

  datatype Rows = Rows(conversations: map<ConversationId, Conversation>, messages: map<MessageId, Message>)

  /** The two members of a pair in canonical order. */
  function Pair(a: UserId, b: UserId): (UserId, UserId) {
    if a < b then (a, b) else (b, a)
  }

  predicate IsPair(c: Conversation, a: UserId, b: UserId) {
    (c.first, c.second) == Pair(a, b)
  }

  predicate IsParticipant(c: Conversation, u: UserId) {
    c.first == u || c.second == u
  }

  function Other(c: Conversation, u: UserId): UserId {
    if c.first == u then c.second else c.first
  }

  predicate PairTaken(r: Rows, a: UserId, b: UserId) {
    exists c | c in r.conversations :: IsPair(r.conversations[c], a, b)
  }

  /** The unique index on sender and client request id. */
  predicate RequestTaken(r: Rows, sender: UserId, request: RequestId) {
    exists m | m in r.messages :: r.messages[m].sender == sender && r.messages[m].request == request
  }

  function NewMessage(now: Time, c: ConversationId, sender: UserId, recipient: UserId, request: RequestId): Message {
    Message(c, sender, recipient, request, now, None, None)
  }

  /** The message, and the conversation's time of its last message. */
  function AddMessage(r: Rows, now: Time, c: ConversationId, m: MessageId, message: Message): Rows
    requires c in r.conversations
  {
    Rows(r.conversations[c := r.conversations[c].(lastMessageAt := Some(now))], r.messages[m := message])
  }

  predicate Unread(x: Message, c: ConversationId, reader: UserId) {
    x.conversation == c && x.recipient == reader && x.readAt.None?
  }

  function ReadAll(messages: map<MessageId, Message>, now: Time, c: ConversationId, reader: UserId): map<MessageId, Message> {
    map m | m in messages :: if Unread(messages[m], c, reader) then messages[m].(readAt := Some(now)) else messages[m]
  }

  /** The order of the message list: by time, then by id. */
  predicate AtOrBefore(messages: map<MessageId, Message>, m: MessageId, through: MessageId)
    requires m in messages && through in messages
  {
    messages[m].createdAt < messages[through].createdAt ||
    (messages[m].createdAt == messages[through].createdAt && m <= through)
  }

  function ReadThrough(messages: map<MessageId, Message>, now: Time, c: ConversationId, reader: UserId, through: MessageId):
    map<MessageId, Message>
    requires through in messages
  {
    map m | m in messages ::
      if Unread(messages[m], c, reader) && AtOrBefore(messages, m, through) then messages[m].(readAt := Some(now)) else messages[m]
  }

  function Without(messages: map<MessageId, Message>, c: ConversationId): map<MessageId, Message> {
    map m | m in messages && messages[m].conversation != c :: messages[m]
  }

  function SetStatus(r: Rows, c: ConversationId, status: Status): Rows
    requires c in r.conversations
  {
    r.(conversations := r.conversations[c := r.conversations[c].(status := status)])
  }

  // ----- initiate

  predicate CanCreate(r: Rows, sender: UserId, recipient: UserId, request: RequestId) {
    !PairTaken(r, sender, recipient) && !RequestTaken(r, sender, request)
  }

  function Create(r: Rows, now: Time, c: ConversationId, m: MessageId, sender: UserId, recipient: UserId, request: RequestId,
                  accepted: bool): Rows
  {
    if CanCreate(r, sender, recipient, request) then
      var (first, second) := Pair(sender, recipient);
      var row := Conversation(first, second, sender, recipient, if accepted then ACCEPTED else PENDING, None);
      AddMessage(r.(conversations := r.conversations[c := row]), now, c, m, NewMessage(now, c, sender, recipient, request))
    else r
  }

  // ----- transitionAndSend, sendAccepted

  /** Only the status read before the transaction is compared. */
  predicate CanTransition(r: Rows, c: ConversationId, seen: Status, sender: UserId, request: RequestId) {
    c in r.conversations && r.conversations[c].status == seen && !RequestTaken(r, sender, request)
  }

  function TransitionAndSend(r: Rows, now: Time, c: ConversationId, seen: Status, next: Status, markRead: bool, m: MessageId,
                             sender: UserId, recipient: UserId, request: RequestId): Rows
  {
    if CanTransition(r, c, seen, sender, request) then
      var row := r.conversations[c].(status := next, requester := sender, recipient := recipient);
      var messages := if markRead then ReadAll(r.messages, now, c, sender) else r.messages;
      AddMessage(Rows(r.conversations[c := row], messages), now, c, m, NewMessage(now, c, sender, recipient, request))
    else r
  }

  predicate CanSend(r: Rows, c: ConversationId, sender: UserId, request: RequestId) {
    CanTransition(r, c, ACCEPTED, sender, request)
  }

  function SendAccepted(r: Rows, now: Time, c: ConversationId, m: MessageId, sender: UserId, recipient: UserId,
                        request: RequestId): Rows
  {
    if CanSend(r, c, sender, request) then AddMessage(r, now, c, m, NewMessage(now, c, sender, recipient, request)) else r
  }

  // ----- handleRequest

  predicate CanHandle(r: Rows, c: ConversationId, actor: UserId) {
    c in r.conversations && r.conversations[c].status == PENDING && r.conversations[c].recipient == actor
  }

  function Accept(r: Rows, now: Time, c: ConversationId, actor: UserId): Rows {
    if CanHandle(r, c, actor) then SetStatus(r, c, ACCEPTED).(messages := ReadAll(r.messages, now, c, actor)) else r
  }

  /** The conversation loses its messages with the status change. */
  function Close(r: Rows, c: ConversationId, status: Status): Rows
    requires c in r.conversations
  {
    Rows(r.conversations[c := r.conversations[c].(status := status, lastMessageAt := None)], Without(r.messages, c))
  }

  function Decline(r: Rows, c: ConversationId, actor: UserId): Rows {
    if CanHandle(r, c, actor) then Close(r, c, DECLINED) else r
  }

  // ----- markRead

  predicate CanMarkRead(r: Rows, c: ConversationId, reader: UserId, through: MessageId) {
    c in r.conversations && IsParticipant(r.conversations[c], reader) && through in r.messages &&
    r.messages[through].conversation == c
  }

  function MarkRead(r: Rows, now: Time, c: ConversationId, reader: UserId, through: MessageId): Rows {
    if CanMarkRead(r, c, reader, through) then r.(messages := ReadThrough(r.messages, now, c, reader, through)) else r
  }

  // ----- recall

  datatype RecallOutcome = RequestCanceled | MessageRecalled | NotFound | NotAllowed

  function RecallResult(r: Rows, c: ConversationId, m: MessageId, sender: UserId): RecallOutcome {
    if c !in r.conversations then NotFound
    else if r.conversations[c].status == PENDING && r.conversations[c].requester == sender then RequestCanceled
    else if r.conversations[c].status != ACCEPTED then NotAllowed
    else if m in r.messages && r.messages[m].sender == sender && r.messages[m].recalledAt.None? then MessageRecalled
    else NotAllowed
  }

  function Recall(r: Rows, now: Time, c: ConversationId, m: MessageId, sender: UserId): Rows {
    match RecallResult(r, c, m, sender)
    case RequestCanceled => Close(r, c, CANCELED)
    case MessageRecalled => r.(messages := r.messages[m := r.messages[m].(recalledAt := Some(now))])
    case _ => r
  }
}

/** The tables as the service changes them in place. */
module ConversationStore {
  import opened Options
  import opened R = ConversationRows
  import opened ConversationEffects

  class ConversationDatabase {
    var conversations: map<ConversationId, Conversation>
    var messages: map<MessageId, Message>

    function View(): Rows
      reads this
    {
      Rows(conversations, messages)
    }

    constructor ()
      ensures View() == Rows(map[], map[])
    {
      conversations, messages := map[], map[];
    }

    /** `None` when no message carries this key. */
    method FindDuplicate(sender: UserId, request: RequestId) returns (found: Option<MessageId>)
      ensures found.Some? <==> RequestTaken(View(), sender, request)
      ensures found.Some? ==> found.value in messages && messages[found.value].sender == sender &&
                              messages[found.value].request == request
    {
      if m :| m in messages && messages[m].sender == sender && messages[m].request == request {
        return Some(m);
      }
      return None;
    }

    /** Inserts a message; `false` on a conflict with the unique index. */
    method CreateMessage(now: Time, c: ConversationId, m: MessageId, sender: UserId, recipient: UserId, request: RequestId)
      returns (ok: bool)
      requires m !in messages
      modifies this`messages
      ensures ok <==> !RequestTaken(old(View()), sender, request)
      ensures messages == if ok then old(messages)[m := NewMessage(now, c, sender, recipient, request)] else old(messages)
    {
      var duplicate := FindDuplicate(sender, request);
      if duplicate.Some? { return false; }
      messages := messages[m := NewMessage(now, c, sender, recipient, request)];
      return true;
    }

    method Create(now: Time, c: ConversationId, m: MessageId, sender: UserId, recipient: UserId, request: RequestId, accepted: bool)
      returns (ok: bool)
      requires c !in conversations && m !in messages
      modifies this
      ensures View() == R.Create(old(View()), now, c, m, sender, recipient, request, accepted)
      ensures Creates(old(View()), View(), now, c, m, sender, recipient, request, accepted)
      ensures ok <==> CanCreate(old(View()), sender, recipient, request)
      ensures ok <==> c in conversations
    {
      CreationEffect(View(), now, c, m, sender, recipient, request, accepted);
      if PairTaken(View(), sender, recipient) { return false; }
      ok := CreateMessage(now, c, m, sender, recipient, request);
      if !ok { return; }
      var (first, second) := Pair(sender, recipient);
      conversations := conversations[c := Conversation(first, second, sender, recipient, if accepted then ACCEPTED else PENDING, None)];
      conversations := conversations[c := conversations[c].(lastMessageAt := Some(now))];
    }

    /** A conflict on the message rolls back the status change that came first. */
    method TransitionAndSend(now: Time, c: ConversationId, seen: Status, next: Status, markRead: bool, m: MessageId,
                             sender: UserId, recipient: UserId, request: RequestId) returns (ok: bool)
      requires m !in messages
      modifies this
      ensures View() == R.TransitionAndSend(old(View()), now, c, seen, next, markRead, m, sender, recipient, request)
      ensures MovesOn(old(View()), View(), now, c, seen, next, markRead, m, sender, recipient, request)
      ensures ok <==> CanTransition(old(View()), c, seen, sender, request)
      ensures ok <==> m in messages
    {
      TransitionEffect(View(), now, c, seen, next, markRead, m, sender, recipient, request);
      if !(c in conversations && conversations[c].status == seen) { return false; }
      var before := View();
      conversations := conversations[c := conversations[c].(status := next, requester := sender, recipient := recipient)];
      if markRead {
        messages := ReadAll(messages, now, c, sender);
        KeysAreKept(before, View(), sender, request);
      }
      ok := CreateMessage(now, c, m, sender, recipient, request);
      if ok {
        conversations := conversations[c := conversations[c].(lastMessageAt := Some(now))];
      } else {
        conversations, messages := before.conversations, before.messages;
      }
    }

    method SendAccepted(now: Time, c: ConversationId, m: MessageId, sender: UserId, recipient: UserId, request: RequestId)
      returns (ok: bool)
      requires m !in messages
      modifies this
      ensures View() == R.SendAccepted(old(View()), now, c, m, sender, recipient, request)
      ensures Sends(old(View()), View(), now, c, m, sender, recipient, request)
      ensures ok <==> CanSend(old(View()), c, sender, request)
      ensures ok <==> m in messages
    {
      SendEffect(View(), now, c, m, sender, recipient, request);
      if !(c in conversations && conversations[c].status == ACCEPTED) { return false; }
      ok := CreateMessage(now, c, m, sender, recipient, request);
      if ok {
        conversations := conversations[c := conversations[c].(lastMessageAt := Some(now))];
      }
    }

    method Accept(now: Time, c: ConversationId, actor: UserId) returns (claimed: bool)
      modifies this
      ensures View() == R.Accept(old(View()), now, c, actor)
      ensures Accepts(old(View()), View(), now, c, actor)
      ensures claimed <==> c in old(conversations) && old(conversations)[c].status == PENDING && old(conversations)[c].recipient == actor
    {
      HandlingEffects(View(), now, c, actor);
      claimed := c in conversations && conversations[c].status == PENDING && conversations[c].recipient == actor;
      if claimed {
        conversations := conversations[c := conversations[c].(status := ACCEPTED)];
        messages := ReadAll(messages, now, c, actor);
      }
    }

    method Decline(c: ConversationId, actor: UserId) returns (claimed: bool)
      modifies this
      ensures View() == R.Decline(old(View()), c, actor)
      ensures Declines(old(View()), View(), c, actor)
      ensures claimed <==> c in old(conversations) && old(conversations)[c].status == PENDING && old(conversations)[c].recipient == actor
    {
      HandlingEffects(View(), 0, c, actor);
      claimed := c in conversations && conversations[c].status == PENDING && conversations[c].recipient == actor;
      if claimed {
        conversations := conversations[c := conversations[c].(status := DECLINED, lastMessageAt := None)];
        messages := Without(messages, c);
      }
    }

    method MarkRead(now: Time, c: ConversationId, reader: UserId, through: MessageId) returns (found: bool)
      modifies this
      ensures View() == R.MarkRead(old(View()), now, c, reader, through)
      ensures ReadsThrough(old(View()), View(), now, c, reader, through)
      ensures found <==> c in conversations && (conversations[c].first == reader || conversations[c].second == reader) &&
                         through in messages && messages[through].conversation == c
    {
      ReadEffect(View(), now, c, reader, through);
      if !(c in conversations && IsParticipant(conversations[c], reader)) { return false; }
      if !(through in messages && messages[through].conversation == c) { return false; }
      messages := ReadThrough(messages, now, c, reader, through);
      return true;
    }

    method Recall(now: Time, c: ConversationId, m: MessageId, sender: UserId) returns (r: RecallOutcome)
      modifies this
      ensures View() == R.Recall(old(View()), now, c, m, sender)
      ensures Recalls(old(View()), View(), now, c, m, sender)
      ensures r == RecallResult(old(View()), c, m, sender)
      ensures r.NotFound? <==> c !in old(conversations)
      ensures r.RequestCanceled? <==> c in old(conversations) && old(conversations)[c].status == PENDING &&
                                      old(conversations)[c].requester == sender
      ensures r.MessageRecalled? <==> c in old(conversations) && old(conversations)[c].status == ACCEPTED && m in old(messages) &&
                                      old(messages)[m].sender == sender && old(messages)[m].recalledAt.None?
    {
      RecallEffect(View(), now, c, m, sender);
      if c !in conversations { return NotFound; }
      var current := conversations[c];
      if current.status == PENDING && current.requester == sender {
        conversations := conversations[c := conversations[c].(status := CANCELED, lastMessageAt := None)];
        messages := Without(messages, c);
        return RequestCanceled;
      }
      if current.status != ACCEPTED { return NotAllowed; }
      if !(m in messages && messages[m].sender == sender && messages[m].recalledAt.None?) { return NotAllowed; }
      messages := messages[m := messages[m].(recalledAt := Some(now))];
      return MessageRecalled;
    }
  }

  /** Marking messages as read frees no key and takes none. */
  lemma KeysAreKept(before: Rows, after: Rows, sender: UserId, request: RequestId)
    requires after.messages.Keys == before.messages.Keys
    requires forall m | m in before.messages ::
               after.messages[m] == before.messages[m].(readAt := after.messages[m].readAt)
    ensures RequestTaken(after, sender, request) <==> RequestTaken(before, sender, request)
  {
    if RequestTaken(after, sender, request) {
      var m :| m in after.messages && after.messages[m].sender == sender && after.messages[m].request == request;
      assert m in before.messages && before.messages[m].sender == sender;
    }
    if RequestTaken(before, sender, request) {
      var m :| m in before.messages && before.messages[m].sender == sender && before.messages[m].request == request;
      assert m in after.messages && after.messages[m].sender == sender;
    }
  }
}
