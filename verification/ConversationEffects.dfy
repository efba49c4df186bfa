/** What each transaction on a direct conversation does, told by the fields of the rows before and after it. */
module ConversationEffects {
  import opened Options
  import opened ConversationRows

  ghost predicate OtherConversationsSame(r: Rows, r': Rows, c: ConversationId) {
    forall d | d != c ::
      (d in r'.conversations <==> d in r.conversations) && (d in r.conversations ==> r'.conversations[d] == r.conversations[d])
  }

  /** One message is new, and no other changes. */
  ghost predicate Adds(ms: map<MessageId, Message>, ms': map<MessageId, Message>, m: MessageId, x: Message) {
    m in ms' && ms'[m] == x && forall k | k != m :: (k in ms' <==> k in ms) && (k in ms ==> ms'[k] == ms[k])
  }

  /** No message of this sender carries this client request id. */
  ghost predicate KeyFree(r: Rows, sender: UserId, request: RequestId) {
    forall m | m in r.messages && r.messages[m].sender == sender :: r.messages[m].request != request
  }

  /**
   A conversation appears with its first message exactly when the pair has none and the key is free. It is accepted at
   once only for mutual followers; otherwise it is a request by the sender, pending.
   */
  ghost predicate Creates(r: Rows, r': Rows, now: Time, c: ConversationId, m: MessageId, sender: UserId, recipient: UserId,
                          request: RequestId, mutual: bool) {
    var first, second := if sender < recipient then sender else recipient, if sender < recipient then recipient else sender;
    if KeyFree(r, sender, request) &&
       forall d | d in r.conversations :: r.conversations[d].first != first || r.conversations[d].second != second
    then
      OtherConversationsSame(r, r', c) && c in r'.conversations &&
      r'.conversations[c] == Conversation(first, second, sender, recipient, if mutual then ACCEPTED else PENDING, Some(now)) &&
      Adds(r.messages, r'.messages, m, Message(c, sender, recipient, request, now, None, None))
    else r' == r
  }

  /** What a message answers: the sender has now read everything sent to them in the conversation. */
  ghost predicate ReadBy(x: Message, x': Message, now: Time, c: ConversationId, reader: UserId) {
    x' == if x.conversation == c && x.recipient == reader && x.readAt.None? then x.(readAt := Some(now)) else x
  }

  /**
   The conversation moves on with a message of the sender exactly when it still has the status that was read and the
   key is free; the sender becomes its requester.
   */
  ghost predicate MovesOn(r: Rows, r': Rows, now: Time, c: ConversationId, seen: Status, next: Status, markRead: bool, m: MessageId,
                          sender: UserId, recipient: UserId, request: RequestId) {
    if c in r.conversations && r.conversations[c].status == seen && KeyFree(r, sender, request) then
      OtherConversationsSame(r, r', c) && c in r'.conversations &&
      r'.conversations[c] ==
        Conversation(r.conversations[c].first, r.conversations[c].second, sender, recipient, next, Some(now)) &&
      m in r'.messages && r'.messages[m] == Message(c, sender, recipient, request, now, None, None) &&
      forall k | k != m ::
        (k in r'.messages <==> k in r.messages) &&
        (k in r.messages ==> if markRead then ReadBy(r.messages[k], r'.messages[k], now, c, sender) else r'.messages[k] == r.messages[k])
    else r' == r
  }

  /** A message is stored exactly while the conversation is accepted and the key is free. */
  ghost predicate Sends(r: Rows, r': Rows, now: Time, c: ConversationId, m: MessageId, sender: UserId, recipient: UserId,
                        request: RequestId) {
    if c in r.conversations && r.conversations[c].status == ACCEPTED && KeyFree(r, sender, request) then
      OtherConversationsSame(r, r', c) && c in r'.conversations &&
      r'.conversations[c] == r.conversations[c].(lastMessageAt := Some(now)) &&
      Adds(r.messages, r'.messages, m, Message(c, sender, recipient, request, now, None, None))
    else r' == r
  }

  /** The recipient of a pending request accepts it and has read it. */
  ghost predicate Accepts(r: Rows, r': Rows, now: Time, c: ConversationId, actor: UserId) {
    if c in r.conversations && r.conversations[c].status == PENDING && r.conversations[c].recipient == actor then
      OtherConversationsSame(r, r', c) && c in r'.conversations && r'.conversations[c] == r.conversations[c].(status := ACCEPTED) &&
      r'.messages.Keys == r.messages.Keys && forall k | k in r.messages :: ReadBy(r.messages[k], r'.messages[k], now, c, actor)
    else r' == r
  }

  /** The conversation gets this status and loses its messages; nothing else changes. */
  ghost predicate Empties(r: Rows, r': Rows, c: ConversationId, status: Status)
    requires c in r.conversations
  {
    OtherConversationsSame(r, r', c) && c in r'.conversations &&
    r'.conversations[c] == r.conversations[c].(status := status, lastMessageAt := None) &&
    forall k ::
      (k in r'.messages <==> k in r.messages && r.messages[k].conversation != c) &&
      (k in r'.messages ==> r'.messages[k] == r.messages[k])
  }

  ghost predicate Declines(r: Rows, r': Rows, c: ConversationId, actor: UserId) {
    if c in r.conversations && r.conversations[c].status == PENDING && r.conversations[c].recipient == actor
    then Empties(r, r', c, DECLINED)
    else r' == r
  }

  /** Everything sent to the reader up to this message of the conversation, by time and then by id, is read. */
  ghost predicate ReadsThrough(r: Rows, r': Rows, now: Time, c: ConversationId, reader: UserId, through: MessageId) {
    r'.conversations == r.conversations &&
    if c in r.conversations && (r.conversations[c].first == reader || r.conversations[c].second == reader) &&
       through in r.messages && r.messages[through].conversation == c
    then
      r'.messages.Keys == r.messages.Keys &&
      forall k | k in r.messages ::
        var x, last := r.messages[k], r.messages[through].createdAt;
        if x.createdAt < last || (x.createdAt == last && k <= through) then ReadBy(x, r'.messages[k], now, c, reader)
        else r'.messages[k] == x
    else r'.messages == r.messages
  }

  /** The requester of a pending conversation cancels it; a message of an accepted one is marked; else nothing happens. */
  ghost predicate Recalls(r: Rows, r': Rows, now: Time, c: ConversationId, m: MessageId, sender: UserId) {
    if c in r.conversations && r.conversations[c].status == PENDING && r.conversations[c].requester == sender then
      Empties(r, r', c, CANCELED)
    else if c in r.conversations && r.conversations[c].status == ACCEPTED && m in r.messages && r.messages[m].sender == sender &&
            r.messages[m].recalledAt.None? then
      r'.conversations == r.conversations && Adds(r.messages, r'.messages, m, r.messages[m].(recalledAt := Some(now)))
    else r' == r
  }

  // ----- The transactions do that

  lemma KeyFreeIff(r: Rows, sender: UserId, request: RequestId)
    ensures KeyFree(r, sender, request) <==> !RequestTaken(r, sender, request)
  {
  }

  lemma PairFreeIff(r: Rows, a: UserId, b: UserId)
    ensures !PairTaken(r, a, b) <==>
            forall d | d in r.conversations ::
              r.conversations[d].first != (if a < b then a else b) || r.conversations[d].second != if a < b then b else a
  {
  }

  lemma CreationEffect(r: Rows, now: Time, c: ConversationId, m: MessageId, sender: UserId, recipient: UserId, request: RequestId,
                       mutual: bool)
    ensures Creates(r, Create(r, now, c, m, sender, recipient, request, mutual), now, c, m, sender, recipient, request, mutual)
  {
    hide KeyFree, RequestTaken, PairTaken;
    KeyFreeIff(r, sender, request);
    PairFreeIff(r, sender, recipient);
  }

  lemma TransitionEffect(r: Rows, now: Time, c: ConversationId, seen: Status, next: Status, markRead: bool, m: MessageId,
                         sender: UserId, recipient: UserId, request: RequestId)
    ensures MovesOn(r, TransitionAndSend(r, now, c, seen, next, markRead, m, sender, recipient, request),
                    now, c, seen, next, markRead, m, sender, recipient, request)
  {
    hide KeyFree, RequestTaken;
    KeyFreeIff(r, sender, request);
  }

  lemma SendEffect(r: Rows, now: Time, c: ConversationId, m: MessageId, sender: UserId, recipient: UserId, request: RequestId)
    ensures Sends(r, SendAccepted(r, now, c, m, sender, recipient, request), now, c, m, sender, recipient, request)
  {
    hide KeyFree, RequestTaken;
    KeyFreeIff(r, sender, request);
  }

  lemma HandlingEffects(r: Rows, now: Time, c: ConversationId, actor: UserId)
    ensures Accepts(r, Accept(r, now, c, actor), now, c, actor)
    ensures Declines(r, Decline(r, c, actor), c, actor)
  {
  }

  lemma ReadEffect(r: Rows, now: Time, c: ConversationId, reader: UserId, through: MessageId)
    ensures ReadsThrough(r, MarkRead(r, now, c, reader, through), now, c, reader, through)
  {
  }

  lemma RecallEffect(r: Rows, now: Time, c: ConversationId, m: MessageId, sender: UserId)
    ensures Recalls(r, Recall(r, now, c, m, sender), now, c, m, sender)
  {
  }
}
