/** Every action keeps the conversation invariant and undoes nothing that is final. */
module ConversationInvariant {
  import opened Options
  import opened ConversationRows
  import opened ConversationProtocol

  // ----- The tables

  /** The same messages up to their read and recall marks. */
  ghost predicate Marked(ms: map<MessageId, Message>, ms': map<MessageId, Message>) {
    ms'.Keys == ms.Keys &&
    forall m | m in ms :: ms'[m] == ms[m].(readAt := ms'[m].readAt, recalledAt := ms'[m].recalledAt)
  }

  lemma MarkKeepsContent(r: Rows, ms: map<MessageId, Message>, c: ConversationId)
    requires c in r.conversations && ContentOk(r, c) && Marked(r.messages, ms)
    ensures ContentOk(r.(messages := ms), c)
  {
    var r' := r.(messages := ms);
    if m :| m in r.messages && Newest(r, c, m) { assert Newest(r', c, m); }
    if m :| m in r.messages && OnlyRequest(r, c, m) { assert OnlyRequest(r', c, m); }
  }

  lemma MarkKeeps(r: Rows, ms: map<MessageId, Message>, now: Time)
    requires RowsOk(r, now) && Marked(r.messages, ms)
    ensures RowsOk(r.(messages := ms), now)
  {
    hide ContentOk;
    forall c | c in r.conversations
      ensures ContentOk(r.(messages := ms), c)
    {
      MarkKeepsContent(r, ms, c);
    }
  }

  lemma ReadAllMarks(ms: map<MessageId, Message>, now: Time, c: ConversationId, reader: UserId)
    ensures Marked(ms, ReadAll(ms, now, c, reader))
  {
  }

  /** A new row for a conversation together with a new message in it. */
  function Posted(r: Rows, now: Time, c: ConversationId, row: Conversation, m: MessageId, x: Message): Rows {
    Rows(r.conversations[c := row.(lastMessageAt := Some(now))], r.messages[m := x])
  }

  ghost predicate Fits(r: Rows, c: ConversationId, row: Conversation) {
    ShapeOk(row) &&
    (if c in r.conversations then SamePair(row, r.conversations[c]) else !PairTaken(r, row.first, row.second)) &&
    (c !in r.conversations ==> Empty(r, c))
  }

  /** The message is the request of a pending conversation that was empty, or belongs to an accepted one. */
  ghost predicate Allows(r: Rows, c: ConversationId, row: Conversation, x: Message) {
    Between(row, x.sender, x.recipient) &&
    (row.status == ACCEPTED ||
     (row.status == PENDING && x.sender == row.requester && x.recipient == row.recipient && Empty(r, c)))
  }

  /** Nothing about a conversation changed. */
  ghost predicate SameThere(r: Rows, r': Rows, d: ConversationId) {
    d in r.conversations && d in r'.conversations && r'.conversations[d] == r.conversations[d] &&
    (forall k | k in r.messages && r.messages[k].conversation == d :: k in r'.messages && r'.messages[k] == r.messages[k]) &&
    forall k | k in r'.messages && r'.messages[k].conversation == d :: k in r.messages && r.messages[k] == r'.messages[k]
  }

  lemma SameKeepsContent(r: Rows, r': Rows, d: ConversationId)
    requires SameThere(r, r', d) && ContentOk(r, d)
    ensures ContentOk(r', d)
  {
    if k :| k in r.messages && Newest(r, d, k) { assert Newest(r', d, k); }
    if k :| k in r.messages && OnlyRequest(r, d, k) { assert OnlyRequest(r', d, k); }
  }

  lemma ContentAt(r: Rows, now: Time, d: ConversationId)
    requires RowsOk(r, now) && d in r.conversations
    ensures ContentOk(r, d)
  {
    hide ContentOk, UniqueOk, MessageOk, ShapeOk;
  }

  lemma NewContent(r: Rows, now: Time, c: ConversationId, row: Conversation, m: MessageId, x: Message)
    requires RowsOk(r, now) && m !in r.messages && x.conversation == c && x.createdAt == now && Allows(r, c, row, x)
    ensures ContentOk(Posted(r, now, c, row, m, x), c)
  {
    hide UniqueOk, ContentOk;
    var r' := Posted(r, now, c, row, m, x);
    assert forall k | k in r.messages :: MessageOk(r, now, k);
    assert Newest(r', c, m);
    assert LastMessageOk(r', c);
    if row.status == PENDING { assert OnlyRequest(r', c, m); }
    Concludes(r', c, m);
  }

  lemma Concludes(r: Rows, c: ConversationId, m: MessageId)
    requires c in r.conversations && LastMessageOk(r, c)
    requires r.conversations[c].status == ACCEPTED || (r.conversations[c].status == PENDING && OnlyRequest(r, c, m))
    ensures ContentOk(r, c)
  {
    hide LastMessageOk, OnlyRequest;
  }

  lemma PostKeepsContent(r: Rows, now: Time, c: ConversationId, row: Conversation, m: MessageId, x: Message, d: ConversationId)
    requires RowsOk(r, now) && m !in r.messages && x.conversation == c && x.createdAt == now && Allows(r, c, row, x)
    requires d in Posted(r, now, c, row, m, x).conversations
    ensures ContentOk(Posted(r, now, c, row, m, x), d)
  {
    hide RowsOk, ContentOk, Allows;
    if d == c {
      NewContent(r, now, c, row, m, x);
    } else {
      ContentAt(r, now, d);
      SameKeepsContent(r, Posted(r, now, c, row, m, x), d);
    }
  }

  lemma PostKeepsUnique(r: Rows, now: Time, c: ConversationId, row: Conversation, m: MessageId, x: Message)
    requires UniqueOk(r) && m !in r.messages && !RequestTaken(r, x.sender, x.request) && Fits(r, c, row)
    requires forall d | d in r.conversations :: ShapeOk(r.conversations[d])
    ensures UniqueOk(Posted(r, now, c, row, m, x))
  {
    var r' := Posted(r, now, c, row, m, x);
    forall d, e | d in r'.conversations && e in r'.conversations && SamePair(r'.conversations[d], r'.conversations[e])
      ensures d == e
    {
      if c !in r.conversations {
        assert forall other | other in r.conversations :: !IsPair(r.conversations[other], row.first, row.second);
      }
    }
  }

  lemma PostKeeps(r: Rows, now: Time, c: ConversationId, row: Conversation, m: MessageId, x: Message)
    requires RowsOk(r, now) && m !in r.messages && x.conversation == c && x.createdAt == now
    requires Fits(r, c, row) && Allows(r, c, row, x) && !RequestTaken(r, x.sender, x.request)
    ensures RowsOk(Posted(r, now, c, row, m, x), now)
  {
    hide ContentOk, UniqueOk, RequestTaken, PairTaken, Empty;
    var r' := Posted(r, now, c, row, m, x);
    forall d | d in r'.conversations
      ensures ContentOk(r', d)
    {
      PostKeepsContent(r, now, c, row, m, x, d);
    }
    PostKeepsUnique(r, now, c, row, m, x);
  }

  lemma CloseKeeps(r: Rows, now: Time, c: ConversationId, status: Status)
    requires RowsOk(r, now) && c in r.conversations && status in {DECLINED, CANCELED}
    ensures RowsOk(Close(r, c, status), now)
  {
    var r' := Close(r, c, status);
    forall d | d in r'.conversations
      ensures ContentOk(r', d)
    {
      if d != c {
        ContentAt(r, now, d);
        SameKeepsContent(r, r', d);
      }
    }
  }

  lemma AcceptStatusKeeps(r: Rows, now: Time, c: ConversationId)
    requires RowsOk(r, now) && c in r.conversations && r.conversations[c].status == PENDING
    ensures RowsOk(SetStatus(r, c, ACCEPTED), now)
  {
    var r' := SetStatus(r, c, ACCEPTED);
    forall d | d in r'.conversations
      ensures ContentOk(r', d)
    {
      ContentAt(r, now, d);
      if d != c {
        SameKeepsContent(r, r', d);
      } else if k :| k in r.messages && Newest(r, d, k) {
        assert Newest(r', d, k);
      }
    }
  }

  // ----- The transactions

  lemma CreateKeeps(r: Rows, now: Time, c: ConversationId, m: MessageId, s: Process)
    requires RowsOk(r, now) && s.Creating? && c !in r.conversations && m !in r.messages && s.sender != s.recipient
    ensures RowsOk(Create(r, now, c, m, s.sender, s.recipient, s.request, s.accepted), now)
  {
    hide RowsOk;
    if CanCreate(r, s.sender, s.recipient, s.request) {
      var (first, second) := Pair(s.sender, s.recipient);
      var row := Conversation(first, second, s.sender, s.recipient, if s.accepted then ACCEPTED else PENDING, None);
      var x := NewMessage(now, c, s.sender, s.recipient, s.request);
      assert Empty(r, c) by { NoStrays(r, now, c); }
      assert !PairTaken(r, first, second);
      PostKeeps(r, now, c, row, m, x);
      assert Create(r, now, c, m, s.sender, s.recipient, s.request, s.accepted) == Posted(r, now, c, row, m, x);
    }
  }

  lemma NoStrays(r: Rows, now: Time, c: ConversationId)
    requires RowsOk(r, now) && c !in r.conversations
    ensures Empty(r, c)
  {
    hide ContentOk, UniqueOk;
    assert forall m | m in r.messages :: MessageOk(r, now, m);
  }

  lemma ClosedIsEmpty(r: Rows, now: Time, c: ConversationId)
    requires RowsOk(r, now) && c in r.conversations && r.conversations[c].status in {DECLINED, CANCELED}
    ensures Empty(r, c)
  {
    assert ContentOk(r, c);
  }

  lemma TransitionKeeps(r: Rows, used: set<MessageId>, now: Time, m: MessageId, s: Process)
    requires RowsOk(r, now) && s.Transitioning? && ProcessOk(r, used, s) && m !in r.messages
    ensures RowsOk(TransitionAndSend(r, now, s.c, s.seen.status, s.next, s.markRead, m, s.sender, s.recipient, s.request), now)
  {
    hide RowsOk, Empty;
    if CanTransition(r, s.c, s.seen.status, s.sender, s.request) {
      var row := r.conversations[s.c].(status := s.next, requester := s.sender, recipient := s.recipient);
      var ms := if s.markRead then ReadAll(r.messages, now, s.c, s.sender) else r.messages;
      ReadAllMarks(r.messages, now, s.c, s.sender);
      MarkKeeps(r, ms, now);
      var r1 := r.(messages := ms);
      var x := NewMessage(now, s.c, s.sender, s.recipient, s.request);
      KeysKept(r, ms, s.sender, s.request);
      if s.next == PENDING { ClosedIsEmpty(r1, now, s.c); }
      assert ShapeOk(row) by { ShapeAt(r, now, s.c); }
      PostKeeps(r1, now, s.c, row, m, x);
      assert TransitionAndSend(r, now, s.c, s.seen.status, s.next, s.markRead, m, s.sender, s.recipient, s.request)
          == Posted(r1, now, s.c, row, m, x);
    }
  }

  lemma ShapeAt(r: Rows, now: Time, c: ConversationId)
    requires RowsOk(r, now) && c in r.conversations
    ensures ShapeOk(r.conversations[c])
  {
    hide ContentOk, UniqueOk, MessageOk;
  }

  lemma KeysKept(r: Rows, ms: map<MessageId, Message>, sender: UserId, request: RequestId)
    requires Marked(r.messages, ms) && !RequestTaken(r, sender, request)
    ensures !RequestTaken(r.(messages := ms), sender, request)
  {
    assert forall m | m in ms :: ms[m].sender == r.messages[m].sender && ms[m].request == r.messages[m].request;
  }

  lemma SendKeeps(r: Rows, used: set<MessageId>, now: Time, m: MessageId, s: Process)
    requires RowsOk(r, now) && s.Sending? && ProcessOk(r, used, s) && m !in r.messages
    ensures RowsOk(SendAccepted(r, now, s.c, m, s.sender, s.recipient, s.request), now)
  {
    hide RowsOk, Empty;
    if CanSend(r, s.c, s.sender, s.request) {
      var x := NewMessage(now, s.c, s.sender, s.recipient, s.request);
      ShapeAt(r, now, s.c);
      PostKeeps(r, now, s.c, r.conversations[s.c], m, x);
      assert SendAccepted(r, now, s.c, m, s.sender, s.recipient, s.request) == Posted(r, now, s.c, r.conversations[s.c], m, x);
    }
  }

  lemma HandleKeeps(r: Rows, now: Time, c: ConversationId, actor: UserId)
    requires RowsOk(r, now)
    ensures RowsOk(Accept(r, now, c, actor), now) && RowsOk(Decline(r, c, actor), now)
  {
    hide RowsOk;
    if CanHandle(r, c, actor) {
      AcceptStatusKeeps(r, now, c);
      ReadAllMarks(r.messages, now, c, actor);
      MarkKeeps(SetStatus(r, c, ACCEPTED), ReadAll(r.messages, now, c, actor), now);
      CloseKeeps(r, now, c, DECLINED);
    }
  }

  lemma RecallKeeps(r: Rows, now: Time, c: ConversationId, m: MessageId, sender: UserId)
    requires RowsOk(r, now)
    ensures RowsOk(Recall(r, now, c, m, sender), now)
  {
    hide RowsOk;
    match RecallResult(r, c, m, sender)
    case RequestCanceled => CloseKeeps(r, now, c, CANCELED);
    case MessageRecalled => MarkKeeps(r, r.messages[m := r.messages[m].(recalledAt := Some(now))], now);
    case _ =>
  }

  lemma LaterRowsOk(r: Rows, now: Time, later: Time)
    requires RowsOk(r, now) && now <= later
    ensures RowsOk(r, later)
  {
    hide ContentOk, UniqueOk;
  }

  // ----- What stays

  lemma TransitionEvolves(r: Rows, used: set<MessageId>, now: Time, m: MessageId, s: Process)
    requires RowsOk(r, now) && s.Transitioning? && ProcessOk(r, used, s) && m !in used && r.messages.Keys <= used
    ensures RowsEvolve(used, r, TransitionAndSend(r, now, s.c, s.seen.status, s.next, s.markRead, m, s.sender, s.recipient, s.request))
  {
    hide RowsOk, RequestTaken;
    ShapeAt(r, now, s.c);
  }

  lemma CreateEvolves(r: Rows, used: set<MessageId>, now: Time, c: ConversationId, m: MessageId, s: Process)
    requires s.Creating? && c !in r.conversations && m !in used && r.messages.Keys <= used
    ensures RowsEvolve(used, r, Create(r, now, c, m, s.sender, s.recipient, s.request, s.accepted))
  {
    hide RequestTaken, PairTaken;
  }

  lemma SendEvolves(r: Rows, used: set<MessageId>, now: Time, m: MessageId, s: Process)
    requires s.Sending? && m !in used && r.messages.Keys <= used
    ensures RowsEvolve(used, r, SendAccepted(r, now, s.c, m, s.sender, s.recipient, s.request))
  {
    hide RequestTaken;
  }

  lemma CloseEvolves(r: Rows, used: set<MessageId>, c: ConversationId, status: Status)
    requires c in r.conversations && r.conversations[c].status == PENDING && status != ACCEPTED
    ensures RowsEvolve(used, r, Close(r, c, status))
  {
  }

  lemma HandleEvolves(r: Rows, used: set<MessageId>, now: Time, c: ConversationId, actor: UserId)
    requires r.messages.Keys <= used
    ensures RowsEvolve(used, r, Accept(r, now, c, actor)) && RowsEvolve(used, r, Decline(r, c, actor))
  {
    if CanHandle(r, c, actor) { CloseEvolves(r, used, c, DECLINED); }
  }

  lemma RecallEvolves(r: Rows, used: set<MessageId>, now: Time, c: ConversationId, m: MessageId, actor: UserId)
    requires r.messages.Keys <= used
    ensures RowsEvolve(used, r, Recall(r, now, c, m, actor))
  {
    if RecallResult(r, c, m, actor) == RequestCanceled { CloseEvolves(r, used, c, CANCELED); }
  }

  lemma MarkReadKeeps(r: Rows, used: set<MessageId>, now: Time, c: ConversationId, reader: UserId, through: MessageId)
    requires RowsOk(r, now)
    ensures RowsOk(MarkRead(r, now, c, reader, through), now) && RowsEvolve(used, r, MarkRead(r, now, c, reader, through))
  {
    hide RowsOk;
    if CanMarkRead(r, c, reader, through) { MarkKeeps(r, ReadThrough(r.messages, now, c, reader, through), now); }
  }

  lemma ProcessStays(r: Rows, r': Rows, used: set<MessageId>, used': set<MessageId>, s: Process)
    requires ProcessOk(r, used, s) && RowsEvolve(used, r, r') && used <= used'
    ensures ProcessOk(r', used', s)
  {
  }
}
