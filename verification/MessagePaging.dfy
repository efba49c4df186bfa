/** Keyset paging over the messages of one conversation, and what marking as read means in the same order. */
module MessagePaging {
  import opened Options
  import opened Sequences
  import opened ConversationRows

  datatype Key = Key(createdAt: Time, id: MessageId)

  const DEFAULT_LIMIT: nat := 30
  const MAX_LIMIT: nat := 50

  predicate Before(a: Key, b: Key) {
    a.createdAt < b.createdAt || (a.createdAt == b.createdAt && a.id < b.id)
  }

  /** In order, each message once. */
  ghost predicate Sorted(h: seq<Key>) {
    (forall i, j | 0 <= i < j < |h| :: Before(h[i], h[j])) &&
    forall i, j | 0 <= i < j < |h| :: h[i].id != h[j].id
  }

  // ----- The query

  datatype Boundary = Everything | Below(anchor: Key) | Above(anchor: Key)

  predicate Within(k: Key, b: Boundary) {
    match b
    case Everything => true
    case Below(anchor) => Before(k, anchor)
    case Above(anchor) => Before(anchor, k)
  }

  function Matching(h: seq<Key>, b: Boundary): seq<Key> {
    if h == [] then [] else (if Within(h[0], b) then [h[0]] else []) + Matching(h[1..], b)
  }

  function Reversed(s: seq<Key>): (r: seq<Key>)
    ensures |r| == |s|
  {
    if s == [] then [] else Reversed(s[1..]) + [s[0]]
  }

  function FirstOf(s: seq<Key>, n: nat): seq<Key> { if n < |s| then s[..n] else s }

  /** What the database returns: the matching rows, in the order asked for, no more than `n`. */
  function FindMany(h: seq<Key>, b: Boundary, ascending: bool, n: nat): seq<Key> {
    FirstOf(if ascending then Matching(h, b) else Reversed(Matching(h, b)), n)
  }

  // ----- What a page is

  datatype Error = BothAnchors | InvalidCursor

  datatype Page = Page(items: seq<Key>, cursor: Option<MessageId>, hasMore: bool)

  function Position(h: seq<Key>, id: MessageId): (r: Option<nat>)
    ensures r.Some? ==> r.value < |h| && h[r.value].id == id
    ensures r.None? ==> forall k | k in h :: k.id != id
  {
    if h == [] then None
    else if h[0].id == id then Some(0)
    else
      match Position(h[1..], id)
      case None => None
      case Some(i) => Some(i + 1)
  }

  function Take(limit: Option<nat>): nat {
    var n := match limit case None => DEFAULT_LIMIT case Some(n) => n;
    if n < MAX_LIMIT then n else MAX_LIMIT
  }

  /** The `take` messages just before position `i`. */
  function OlderPage(h: seq<Key>, i: nat, take: nat): Page
    requires i <= |h|
  {
    var from := if i > take then i - take else 0;
    Page(h[from..i], if from < i then Some(h[from].id) else None, i > take)
  }

  /** The `take` messages from position `i` on. */
  function NewerPage(h: seq<Key>, i: nat, take: nat): Page
    requires i <= |h|
  {
    var to := if i + take < |h| then i + take else |h|;
    Page(h[i..to], if i < to then Some(h[to - 1].id) else None, |h| - i > take)
  }

  function PageOf(h: seq<Key>, cursor: Option<MessageId>, after: Option<MessageId>, limit: Option<nat>): Result<Page, Error> {
    match (cursor, after)
    case (Some(_), Some(_)) => Err(BothAnchors)
    case (None, None) => Ok(OlderPage(h, |h|, Take(limit)))
    case (Some(id), None) =>
      (match Position(h, id)
       case None => Err(InvalidCursor)
       case Some(i) => Ok(OlderPage(h, i, Take(limit))))
    case (None, Some(id)) =>
      (match Position(h, id)
       case None => Err(InvalidCursor)
       case Some(i) => Ok(NewerPage(h, i + 1, Take(limit))))
  }

  // ----- The page, by positions in the history

  /** How many messages a page may hold: thirty unless said otherwise, never more than fifty. */
  ghost predicate IsTake(limit: Option<nat>, n: nat) {
    n == if limit.None? then 30 else if limit.value > 50 then 50 else limit.value
  }

  /** The last `n` messages before `end`, or all there are; the oldest of them is the next cursor. */
  ghost predicate EndsAt(h: seq<Key>, page: Page, end: nat, n: nat) {
    exists from: nat :: from <= end <= |h| && page.items == h[from..end] && page.hasMore == (from > 0) &&
                        (if page.hasMore then |page.items| == n else |page.items| <= n) &&
                        page.cursor == if from < end then Some(h[from].id) else None
  }

  /** The first `n` messages from `start` on, or all there are; the newest of them is the next cursor. */
  ghost predicate StartsAt(h: seq<Key>, page: Page, start: nat, n: nat) {
    exists to: nat :: start <= to <= |h| && page.items == h[start..to] && page.hasMore == (to < |h|) &&
                      (if page.hasMore then |page.items| == n else |page.items| <= n) &&
                      page.cursor == if start < to then Some(h[to - 1].id) else None
  }

  /** Without an anchor the newest page; with one the page right before or after it, which does not contain it. */
  ghost predicate IsAnswer(h: seq<Key>, cursor: Option<MessageId>, after: Option<MessageId>, limit: Option<nat>, r: Result<Page, Error>) {
    exists n: nat :: IsTake(limit, n) &&
      match (cursor, after)
      case (Some(_), Some(_)) => r == Err(BothAnchors)
      case (None, None) => r.Ok? && EndsAt(h, r.value, |h|, n)
      case (Some(id), None) =>
        if exists i: nat :: i < |h| && h[i].id == id then r.Ok? && forall i: nat | i < |h| && h[i].id == id :: EndsAt(h, r.value, i, n)
        else r == Err(InvalidCursor)
      case (None, Some(id)) =>
        if exists i: nat :: i < |h| && h[i].id == id then r.Ok? && forall i: nat | i < |h| && h[i].id == id :: StartsAt(h, r.value, i + 1, n)
        else r == Err(InvalidCursor)
  }

  lemma OlderEnds(h: seq<Key>, i: nat, n: nat)
    requires i <= |h|
    ensures EndsAt(h, OlderPage(h, i, n), i, n)
  {
    var from := if i > n then i - n else 0;
    assert OlderPage(h, i, n).items == h[from..i];
  }

  lemma NewerStarts(h: seq<Key>, i: nat, n: nat)
    requires i <= |h|
    ensures StartsAt(h, NewerPage(h, i, n), i, n)
  {
    var to := if i + n < |h| then i + n else |h|;
    assert NewerPage(h, i, n).items == h[i..to];
  }

  lemma OnePosition(h: seq<Key>, i: nat, j: nat)
    requires Sorted(h) && i < |h| && j < |h| && h[i].id == h[j].id
    ensures i == j
  {
  }

  lemma AnswerIs(h: seq<Key>, cursor: Option<MessageId>, after: Option<MessageId>, limit: Option<nat>)
    requires Sorted(h)
    ensures IsAnswer(h, cursor, after, limit, PageOf(h, cursor, after, limit))
  {
    hide Sorted, Position, OlderPage, NewerPage, EndsAt, StartsAt;
    assert IsTake(limit, Take(limit));
    OlderEnds(h, |h|, Take(limit));
    if cursor.Some? != after.Some? {
      var id := if cursor.Some? then cursor.value else after.value;
      if Position(h, id).Some? {
        var i := Position(h, id).value;
        OlderEnds(h, i, Take(limit));
        NewerStarts(h, i + 1, Take(limit));
        forall j: nat | j < |h| && h[j].id == id
          ensures j == i
        {
          OnePosition(h, i, j);
        }
      } else {
        assert forall i: nat | i < |h| :: h[i] in h;
      }
    }
  }

  lemma {:induction false} MatchingAll(h: seq<Key>)
    ensures Matching(h, Everything) == h
  {
    if h != [] {
      MatchingAll(h[1..]);
      assert [h[0]] + h[1..] == h;
    }
  }

  lemma {:induction false} MatchingNone(h: seq<Key>, b: Boundary)
    requires forall k | k in h :: !Within(k, b)
    ensures Matching(h, b) == []
  {
    if h != [] { MatchingNone(h[1..], b); }
  }

  lemma {:induction false} MatchingEvery(h: seq<Key>, b: Boundary)
    requires forall k | k in h :: Within(k, b)
    ensures Matching(h, b) == h
  {
    if h != [] {
      MatchingEvery(h[1..], b);
      assert [h[0]] + h[1..] == h;
    }
  }

  lemma {:induction false} MatchingAppend(a: seq<Key>, c: seq<Key>, b: Boundary)
    ensures Matching(a + c, b) == Matching(a, b) + Matching(c, b)
  {
    hide Within;
    if a == [] {
      JoinEmpty(c);
    } else {
      MatchingAppend(a[1..], c, b);
      JoinHead(a, c);
      Associate(if Within(a[0], b) then [a[0]] else [], Matching(a[1..], b), Matching(c, b));
    }
  }

  lemma MatchingParts(older: seq<Key>, k: Key, newer: seq<Key>)
    requires forall x | x in older :: Before(x, k)
    requires forall x | x in newer :: Before(k, x)
    ensures Matching(older + [k] + newer, Below(k)) == older && Matching(older + [k] + newer, Above(k)) == newer
  {
    hide Matching;
    MatchingAppend(older + [k], newer, Below(k));
    MatchingAppend(older, [k], Below(k));
    MatchingEvery(older, Below(k));
    MatchingNone([k], Below(k));
    MatchingNone(newer, Below(k));
    MatchingAppend(older + [k], newer, Above(k));
    MatchingAppend(older, [k], Above(k));
    MatchingNone(older, Above(k));
    MatchingNone([k], Above(k));
    MatchingEvery(newer, Above(k));
  }

  /** The rows on each side of an anchor are the part of the order before it and the part after it. */
  lemma MatchingSide(h: seq<Key>, i: nat)
    requires Sorted(h) && i < |h|
    ensures Matching(h, Below(h[i])) == h[..i] && Matching(h, Above(h[i])) == h[i + 1..]
  {
    hide Matching, Before;
    MatchingParts(h[..i], h[i], h[i + 1..]);
    assert h == h[..i] + [h[i]] + h[i + 1..];
  }

  lemma {:induction false} ReversedAt(s: seq<Key>, i: nat)
    requires i < |s|
    ensures Reversed(s)[i] == s[|s| - 1 - i]
  {
    if i < |s| - 1 { ReversedAt(s[1..], i); }
  }

  lemma {:induction false} ReversedAppend(a: seq<Key>, b: seq<Key>)
    ensures Reversed(a + b) == Reversed(b) + Reversed(a)
  {
    if a == [] {
      JoinEmpty(b);
      JoinEmpty(Reversed(b));
    } else {
      ReversedAppend(a[1..], b);
      JoinHead(a, b);
      Associate(Reversed(b), Reversed(a[1..]), [a[0]]);
    }
  }

  lemma {:induction false} ReversedTwice(s: seq<Key>)
    ensures Reversed(Reversed(s)) == s
  {
    if s != [] {
      ReversedTwice(s[1..]);
      ReversedAppend(Reversed(s[1..]), [s[0]]);
      assert Reversed([s[0]]) == [s[0]];
    }
  }

  lemma ReversedFront(s: seq<Key>, n: nat)
    requires n <= |s|
    ensures Reversed(Reversed(s)[..n]) == s[|s| - n..]
  {
    hide Reversed;
    var a, b := s[..|s| - n], s[|s| - n..];
    assert s == a + b;
    ReversedAppend(a, b);
    ReversedTwice(b);
    assert Reversed(s)[..n] == Reversed(b);
  }

  /** The page made from the rows of a query: the extra row dropped, a descending page turned round. */
  function FromRows(rows: seq<Key>, take: nat, ascending: bool): Page {
    var kept := rows[..if |rows| > take then |rows| - 1 else |rows|];
    var items := if ascending then kept else Reversed(kept);
    Page(items, if items == [] then None else Some(items[if ascending then |items| - 1 else 0].id), |rows| > take)
  }

  /** It holds the messages next to the anchor. */
  lemma OlderRows(h: seq<Key>, i: nat, take: nat)
    requires i <= |h|
    ensures FromRows(FirstOf(Reversed(h[..i]), take + 1), take, false) == OlderPage(h, i, take)
  {
    hide Reversed;
    var count := if i > take then take else i;
    ReversedFront(h[..i], count);
    var rows := FirstOf(Reversed(h[..i]), take + 1);
    assert rows[..count] == Reversed(h[..i])[..count];
    assert h[..i][i - count..] == h[i - count..i];
  }

  lemma NewerRows(h: seq<Key>, i: nat, take: nat)
    requires i <= |h|
    ensures FromRows(FirstOf(h[i..], take + 1), take, true) == NewerPage(h, i, take)
  {
  }

  method ReverseInPlace(a: array<Key>)
    modifies a
    ensures a[..] == Reversed(old(a[..]))
  {
    var n, i := a.Length, 0;
    while i < n / 2
      invariant 0 <= i <= n / 2
      invariant forall k :: 0 <= k < i ==> a[k] == old(a[n - 1 - k]) && a[n - 1 - k] == old(a[k])
      invariant forall k :: i <= k < n - i ==> a[k] == old(a[k])
    {
      a[i], a[n - 1 - i] := a[n - 1 - i], a[i];
      i := i + 1;
    }
    hide Reversed;
    ghost var was := old(a[..]);
    forall k | 0 <= k < n
      ensures a[..][k] == Reversed(was)[k]
    {
      ReversedAt(was, k);
    }
    assert a[..] == Reversed(was);
  }

  /** One row more than asked for tells whether there are more; it is dropped, and a descending page is turned round. */
  method ToPage(rows: seq<Key>, take: nat, ascending: bool) returns (page: Page)
    ensures page == FromRows(rows, take, ascending)
  {
    hide Reversed;
    var hasMore := |rows| > take;
    var count := if hasMore then |rows| - 1 else |rows|;
    var messages := new Key[count](k requires 0 <= k < count => rows[k]);
    assert messages[..] == rows[..count];
    if !ascending {
      ReverseInPlace(messages);
    }
    var items := messages[..];
    var cursor := if items == [] then None else Some(if ascending then items[|items| - 1].id else items[0].id);
    return Page(items, cursor, hasMore);
  }

  method FindMessages(h: seq<Key>, cursor: Option<MessageId>, after: Option<MessageId>, limit: Option<nat>)
    returns (r: Result<Page, Error>)
    requires Sorted(h)
    ensures r == PageOf(h, cursor, after, limit)
    ensures IsAnswer(h, cursor, after, limit, r)
  {
    AnswerIs(h, cursor, after, limit);
    hide Matching, Reversed, Sorted, Position, Take, Before, FirstOf, FromRows, OlderPage, NewerPage, IsAnswer;
    if cursor.Some? && after.Some? {
      return Err(BothAnchors);
    }
    var anchorId := if cursor.Some? then cursor else after;
    var boundary := Everything;
    ghost var i := |h|;
    MatchingAll(h);
    assert h[..|h|] == h;
    if anchorId.Some? {
      var anchor := Position(h, anchorId.value);
      if anchor.None? {
        return Err(InvalidCursor);
      }
      boundary := if after.Some? then Above(h[anchor.value]) else Below(h[anchor.value]);
      i := if after.Some? then anchor.value + 1 else anchor.value;
      MatchingSide(h, anchor.value);
    }
    var take := Take(limit);
    var rows := FindMany(h, boundary, after.Some?, take + 1);
    OlderRows(h, i, take);
    NewerRows(h, i, take);
    var page := ToPage(rows, take, after.Some?);
    return Ok(page);
  }

  // ----- Walking

  /** Following `cursor` until no more pages are announced; each page goes in front of the newer ones. */
  function Older(h: seq<Key>, cursor: Option<MessageId>, limit: Option<nat>): seq<Key>
    requires Sorted(h) && Take(limit) >= 1
    decreases match cursor case None => |h| + 1 case Some(id) => (match Position(h, id) case None => 0 case Some(i) => i)
  {
    match PageOf(h, cursor, None, limit)
    case Err(_) => []
    case Ok(page) =>
      if page.hasMore then
        PositionOf(h, (match cursor case None => |h| case Some(id) => Position(h, id).value) - Take(limit));
        Older(h, page.cursor, limit) + page.items
      else page.items
  }

  lemma {:induction false} PositionOf(h: seq<Key>, i: nat)
    requires Sorted(h) && i < |h|
    ensures Position(h, h[i].id) == Some(i)
  {
    if i > 0 {
      PositionOf(h[1..], i - 1);
    }
  }

  /** Following `after` until no more pages are announced. */
  function Newer(h: seq<Key>, after: MessageId, limit: Option<nat>): seq<Key>
    requires Sorted(h) && Take(limit) >= 1
    decreases match Position(h, after) case None => 0 case Some(i) => |h| - i
  {
    match PageOf(h, None, Some(after), limit)
    case Err(_) => []
    case Ok(page) =>
      if page.hasMore then
        PositionOf(h, Position(h, after).value + Take(limit));
        page.items + Newer(h, page.cursor.value, limit)
      else page.items
  }

  /** The position a walk starts from: that of its cursor, or the end. */
  function StartOf(h: seq<Key>, cursor: Option<MessageId>): (i: nat)
    requires cursor.Some? ==> Position(h, cursor.value).Some?
    ensures i <= |h|
  {
    match cursor
    case None => |h|
    case Some(id) => Position(h, id).value
  }

  lemma OlderStep(h: seq<Key>, cursor: Option<MessageId>, limit: Option<nat>)
    requires Sorted(h) && Take(limit) >= 1 && (cursor.Some? ==> Position(h, cursor.value).Some?)
    ensures var i, take := StartOf(h, cursor), Take(limit);
            if i > take then Older(h, cursor, limit) == Older(h, Some(h[i - take].id), limit) + h[i - take..i]
            else Older(h, cursor, limit) == h[..i]
  {
    hide Position, Take, Sorted, PageOf, NewerPage;
    var i, take := StartOf(h, cursor), Take(limit);
    OlderPageOf(h, cursor, limit);
    assert i > take ==> OlderPage(h, i, take).cursor == Some(h[i - take].id);
  }

  lemma OlderPageOf(h: seq<Key>, cursor: Option<MessageId>, limit: Option<nat>)
    requires cursor.Some? ==> Position(h, cursor.value).Some?
    ensures PageOf(h, cursor, None, limit) == Ok(OlderPage(h, StartOf(h, cursor), Take(limit)))
  {
    hide Position, Take, OlderPage, NewerPage;
  }

  /** From the newest message back, or back from a given message: every older message once, in order. */
  lemma {:induction false} OlderVisitsAll(h: seq<Key>, cursor: Option<MessageId>, limit: Option<nat>)
    requires Sorted(h) && Take(limit) >= 1 && (cursor.Some? ==> Position(h, cursor.value).Some?)
    ensures Older(h, cursor, limit) == h[..StartOf(h, cursor)]
    decreases StartOf(h, cursor) + if cursor.None? then 1 else 0
  {
    hide Position, Older, Take, Sorted;
    OlderStep(h, cursor, limit);
    var i, take := StartOf(h, cursor), Take(limit);
    if i > take {
      PositionOf(h, i - take);
      OlderVisitsAll(h, Some(h[i - take].id), limit);
      assert h[..i - take] + h[i - take..i] == h[..i];
    }
  }

  lemma NewerStep(h: seq<Key>, after: MessageId, limit: Option<nat>)
    requires Sorted(h) && Take(limit) >= 1 && Position(h, after).Some?
    ensures var i, take := Position(h, after).value + 1, Take(limit);
            if |h| - i > take then Newer(h, after, limit) == h[i..i + take] + Newer(h, h[i + take - 1].id, limit)
            else Newer(h, after, limit) == h[i..]
  {
    hide Position, Take, Sorted, PageOf, OlderPage;
    var i, take := Position(h, after).value + 1, Take(limit);
    NewerPageOf(h, after, limit);
    assert |h| - i > take ==> NewerPage(h, i, take).cursor == Some(h[i + take - 1].id);
  }

  lemma NewerPageOf(h: seq<Key>, after: MessageId, limit: Option<nat>)
    requires Position(h, after).Some?
    ensures PageOf(h, None, Some(after), limit) == Ok(NewerPage(h, Position(h, after).value + 1, Take(limit)))
  {
    hide Position, Take, OlderPage, NewerPage;
  }

  lemma {:induction false} NewerVisitsAll(h: seq<Key>, after: MessageId, limit: Option<nat>)
    requires Sorted(h) && Take(limit) >= 1 && Position(h, after).Some?
    ensures Newer(h, after, limit) == h[Position(h, after).value + 1..]
    decreases |h| - Position(h, after).value
  {
    hide Position, Newer, Take, Sorted;
    NewerStep(h, after, limit);
    var i, take := Position(h, after).value + 1, Take(limit);
    if |h| - i > take {
      PositionOf(h, i + take - 1);
      NewerVisitsAll(h, h[i + take - 1].id, limit);
      assert h[i..i + take] + h[i + take..] == h[i..];
    }
  }

  // ----- Marking as read

  /** The list of a conversation: its messages, each once, in order. */
  ghost predicate IsHistory(r: Rows, c: ConversationId, h: seq<Key>) {
    Sorted(h) &&
    (forall k | k in h :: k.id in r.messages && r.messages[k.id].conversation == c && r.messages[k.id].createdAt == k.createdAt) &&
    forall m | m in r.messages && r.messages[m].conversation == c :: Key(r.messages[m].createdAt, m) in h
  }

  /**
   Marking through the message at position `n` marks exactly the messages to this reader at positions up to `n` that
   were unread, and touches nothing else.
   */
  lemma MarkReadMarksPrefix(r: Rows, now: Time, c: ConversationId, reader: UserId, h: seq<Key>, n: nat)
    requires IsHistory(r, c, h) && n < |h| && CanMarkRead(r, c, reader, h[n].id)
    ensures var r' := MarkRead(r, now, c, reader, h[n].id);
            r'.conversations == r.conversations && r'.messages.Keys == r.messages.Keys &&
            (forall i | 0 <= i < |h| ::
               var x := r.messages[h[i].id];
               r'.messages[h[i].id] == if i <= n && x.recipient == reader && x.readAt.None? then x.(readAt := Some(now)) else x) &&
            forall m | m in r.messages && r.messages[m].conversation != c :: r'.messages[m] == r.messages[m]
  {
    forall i | 0 <= i < |h|
      ensures AtOrBefore(r.messages, h[i].id, h[n].id) <==> i <= n
    {
      assert h[i] in h && h[n] in h;
      if i < n { assert Before(h[i], h[n]); }
      if n < i { assert Before(h[n], h[i]); }
    }
  }
}
