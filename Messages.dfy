/**
 * The messages API route: GET lists the signed-in user's messages (optionally only the
 * conversation with one other user) in creation order; POST validates, stores and
 * broadcasts a new message. The database is the `messages` sequence; the socket server's
 * `io.emit('newMessage', …)` is the `broadcasts` log.
 */
module MessageApi {
  import opened Wrappers
  import opened Http

  /** A stored message with the sender's display name the route includes. */
  datatype Message = Message(
    id: string,
    content: string,
    senderId: string,
    receiverId: string,
    senderName: string,
    createdAt: int,
    read: bool)

  /** What the store assigns on create: the id, the creation time and the sender's name it joins in. */
  datatype Assigned = Assigned(id: string, createdAt: int, senderName: string)

  /** The viewer sent or received m. */
  predicate Involves(m: Message, viewer: string) {
    m.senderId == viewer || m.receiverId == viewer
  }

  /** m went from viewer to other or from other to viewer. */
  predicate Between(m: Message, viewer: string, other: string) {
    (m.senderId == viewer && m.receiverId == other) || (m.senderId == other && m.receiverId == viewer)
  }

  /** The `where` clause of GET: with a (truthy) `userId` parameter only that conversation, otherwise all of the viewer's. */
  predicate Matches(m: Message, viewer: string, counterpart: Option<string>) {
    if Truthy(counterpart) then Between(m, viewer, counterpart.value) else Involves(m, viewer)
  }

  /** The messages that match, in store order. */
  function Select(ms: seq<Message>, viewer: string, counterpart: Option<string>): (r: seq<Message>)
    ensures forall m :: m in r <==> m in ms && Matches(m, viewer, counterpart)
    ensures forall m :: Matches(m, viewer, counterpart) ==> multiset(r)[m] == multiset(ms)[m]
    ensures forall m :: !Matches(m, viewer, counterpart) ==> multiset(r)[m] == 0
  {
    if ms == [] then []
    else
      var rest := Select(ms[1..], viewer, counterpart);
      assert ms == [ms[0]] + ms[1..];
      if Matches(ms[0], viewer, counterpart) then [ms[0]] + rest else rest
  }

  predicate SortedByTime(s: seq<Message>) {
    forall i, j :: 0 <= i < j < |s| ==> s[i].createdAt <= s[j].createdAt
  }

  /** Inserts m before the first later message (messages with equal time keep their order). */
  function InsertByTime(m: Message, s: seq<Message>): (r: seq<Message>)
    requires SortedByTime(s)
    ensures SortedByTime(r)
    ensures multiset(r) == multiset(s) + multiset{m}
    ensures forall x :: x in r ==> x in s || x == m
  {
    if s == [] then [m]
    else if m.createdAt < s[0].createdAt then [m] + s
    else
      var rest := InsertByTime(m, s[1..]);
      assert s == [s[0]] + s[1..];
      FirstIsEarliest(s, m, rest);
      SortedCons(s[0], rest);
      [s[0]] + rest
  }

  /** Whatever was inserted into the tail of s, with an m no earlier than s[0], comes no earlier than s[0]. */
  lemma FirstIsEarliest(s: seq<Message>, m: Message, rest: seq<Message>)
    requires SortedByTime(s) && s != [] && s[0].createdAt <= m.createdAt
    requires forall x :: x in rest ==> x in s[1..] || x == m
    ensures forall j :: 0 <= j < |rest| ==> s[0].createdAt <= rest[j].createdAt
  {
    forall j | 0 <= j < |rest| ensures s[0].createdAt <= rest[j].createdAt {
      assert rest[j] in rest;
      if rest[j] != m {
        var k :| 0 <= k < |s[1..]| && s[1..][k] == rest[j];
        assert s[k + 1] == rest[j];
      }
    }
  }

  lemma SortedCons(x: Message, rest: seq<Message>)
    requires SortedByTime(rest)
    requires forall j :: 0 <= j < |rest| ==> x.createdAt <= rest[j].createdAt
    ensures SortedByTime([x] + rest)
  {
    var r := [x] + rest;
    forall i, j | 0 <= i < j < |r| ensures r[i].createdAt <= r[j].createdAt {
      assert r[j] == rest[j - 1];
      if i > 0 {
        assert r[i] == rest[i - 1];
      }
    }
  }

  /** `orderBy: { createdAt: 'asc' }`. */
  function SortByTime(s: seq<Message>): (r: seq<Message>)
    ensures SortedByTime(r)
    ensures multiset(r) == multiset(s)
  {
    if s == [] then []
    else
      assert s == [s[0]] + s[1..];
      InsertByTime(s[0], SortByTime(s[1..]))
  }

  /**
   * The list GET returns: ordered by creation time, and holding every matching stored
   * message exactly as often as the store does and nothing else.
   */
  function Query(ms: seq<Message>, viewer: string, counterpart: Option<string>): (r: seq<Message>)
    ensures SortedByTime(r)
    ensures forall m :: Matches(m, viewer, counterpart) ==> multiset(r)[m] == multiset(ms)[m]
    ensures forall m :: m in r <==> m in ms && Matches(m, viewer, counterpart)
  {
    var sel := Select(ms, viewer, counterpart);
    var r := SortByTime(sel);
    assert forall m :: m in r <==> m in multiset(sel);
    r
  }

  datatype GetResponse = GetResponse(status: Status, messages: seq<Message>)

  /** The message carried by POST once the store has assigned its fields. */
  function NewMessage(content: string, sender: string, receiver: string, a: Assigned): (m: Message)
    ensures m.senderId == sender && m.receiverId == receiver && m.content == content && !m.read
  {
    Message(a.id, content, sender, receiver, a.senderName, a.createdAt, false)
  }

  class MessageStore {
    /** The persisted messages, in insertion order. */
    var messages: seq<Message>
    /** Every 'newMessage' event the socket server has emitted to all connected sockets. */
    var broadcasts: seq<Message>

    constructor(initial: seq<Message>)
      ensures messages == initial && broadcasts == []
    {
      messages := initial;
      broadcasts := [];
    }

    /** GET: 401 without a session, otherwise the viewer's messages in creation order. */
    function Get(session: Option<string>, counterpart: Option<string>): (r: GetResponse)
      reads this
      ensures !SignedIn(session) ==> r == GetResponse(Unauthorized, [])
      ensures SignedIn(session) ==> r.status == Ok && SortedByTime(r.messages)
      ensures SignedIn(session) ==> forall m :: m in r.messages <==> m in messages && Matches(m, session.value, counterpart)
      ensures SignedIn(session) ==> forall m :: Matches(m, session.value, counterpart) ==> multiset(r.messages)[m] == multiset(messages)[m]
    {
      if !SignedIn(session) then GetResponse(Unauthorized, [])
      else GetResponse(Ok, Query(messages, session.value, counterpart))
    }

    /**
     * POST. `created` is what the store's create returns (None when it throws, which the
     * route does not catch); `socketServer` says whether `global.io` is set.
     */
    method Post(session: Option<string>, content: Option<string>, receiverId: Option<string>,
                created: Option<Assigned>, socketServer: bool)
      returns (status: Status, message: Option<Message>)
      modifies this
      ensures !SignedIn(session) ==> status == Unauthorized
      ensures SignedIn(session) && !(Truthy(content) && Truthy(receiverId)) ==> status == BadRequest
      ensures SignedIn(session) && Truthy(content) && Truthy(receiverId) ==>
                status == (if created.Some? then Ok else InternalError)
      ensures status != Ok ==> message == None && messages == old(messages) && broadcasts == old(broadcasts)
      ensures status == Ok ==>
                && message == Some(NewMessage(content.value, session.value, receiverId.value, created.value))
                && messages == old(messages) + [message.value]
                && broadcasts == old(broadcasts) + (if socketServer then [message.value] else [])
    {
      if !SignedIn(session) {
        return Unauthorized, None;
      }
      if !Truthy(content) || !Truthy(receiverId) {
        return BadRequest, None;
      }
      if created.None? {
        return InternalError, None;
      }
      var m := NewMessage(content.value, session.value, receiverId.value, created.value);
      messages := messages + [m];
      if socketServer {
        broadcasts := broadcasts + [m];
      }
      return Ok, Some(m);
    }
  }
}
