/**
 * The client's message view: it keeps the messages it was given plus every broadcast
 * message the current user takes part in, groups them into one conversation per other
 * user with an unread count, and guards sending on a selected receiver and a non-blank draft.
 */
module Conversations {
  import opened Wrappers
  import opened Http
  import opened Text
  import opened MessageApi

  /** One entry of the `conversations` record: the other user, their messages in list order, and the unread count. */
  datatype Conversation = Conversation(userId: string, messages: seq<Message>, unreadCount: nat)

  /** The user a message is filed under: its receiver if I sent it, its sender otherwise. */
  function OtherParty(m: Message, me: string): string {
    if m.senderId == me then m.receiverId else m.senderId
  }

  /** The messages filed under u, in list order. */
  function With(ms: seq<Message>, me: string, u: string): seq<Message> {
    if ms == [] then []
    else With(ms[..|ms| - 1], me, u) + (if OtherParty(ms[|ms| - 1], me) == u then [ms[|ms| - 1]] else [])
  }

  /** A message counts as unread when it is addressed to me and not read. */
  predicate UnreadByMe(m: Message, me: string) {
    m.receiverId == me && !m.read
  }

  function UnreadFor(ms: seq<Message>, me: string): nat {
    if ms == [] then 0
    else UnreadFor(ms[..|ms| - 1], me) + (if UnreadByMe(ms[|ms| - 1], me) then 1 else 0)
  }

  /** The number of messages over all conversations. */
  function Total(cs: seq<Conversation>): nat {
    if cs == [] then 0 else Total(cs[..|cs| - 1]) + |cs[|cs| - 1].messages|
  }

  /** The users of the conversations, in order (`Object.keys(conversations)`). */
  function Ids(cs: seq<Conversation>): (ids: seq<string>)
    ensures |ids| == |cs|
    ensures forall k :: 0 <= k < |cs| ==> ids[k] == cs[k].userId
  {
    if cs == [] then [] else Ids(cs[..|cs| - 1]) + [cs[|cs| - 1].userId]
  }

  predicate DistinctIds(cs: seq<Conversation>) {
    forall a, b :: 0 <= a < b < |cs| ==> cs[a].userId != cs[b].userId
  }

  lemma WithNone(ms: seq<Message>, me: string, u: string)
    requires forall m :: m in ms ==> OtherParty(m, me) != u
    ensures With(ms, me, u) == []
  {
    if ms != [] {
      assert forall m :: m in ms[..|ms| - 1] ==> m in ms;
      WithNone(ms[..|ms| - 1], me, u);
    }
  }

  lemma WithSnoc(seen: seq<Message>, m: Message, me: string, u: string)
    ensures With(seen + [m], me, u) == With(seen, me, u) + (if OtherParty(m, me) == u then [m] else [])
  {
    assert (seen + [m])[..|seen|] == seen;
  }

  lemma UnreadSnoc(ms: seq<Message>, m: Message, me: string)
    ensures UnreadFor(ms + [m], me) == UnreadFor(ms, me) + (if UnreadByMe(m, me) then 1 else 0)
  {
    assert (ms + [m])[..|ms|] == ms;
  }

  lemma {:induction false} TotalUpdate(cs: seq<Conversation>, j: nat, c: Conversation)
    requires j < |cs|
    ensures Total(cs[j := c]) == Total(cs) - |cs[j].messages| + |c.messages|
    decreases |cs|
  {
    var last := |cs| - 1;
    assert cs[j := c][..last] == if j < last then cs[..last][j := c] else cs[..last];
    if j < last {
      TotalUpdate(cs[..last], j, c);
    }
  }

  lemma TotalSnoc(cs: seq<Conversation>, c: Conversation)
    ensures Total(cs + [c]) == Total(cs) + |c.messages|
  {
    assert (cs + [c])[..|cs|] == cs;
  }

  /** Looks up the conversation with u (`acc[otherUser.id]`): its index, or |cs| when there is none. */
  function Find(cs: seq<Conversation>, u: string): (k: nat)
    ensures k <= |cs|
    ensures k < |cs| ==> cs[k].userId == u
    ensures k == |cs| <==> u !in Ids(cs)
  {
    if cs == [] then 0
    else if cs[|cs| - 1].userId == u && u !in Ids(cs[..|cs| - 1]) then |cs| - 1
    else if u in Ids(cs[..|cs| - 1]) then Find(cs[..|cs| - 1], u)
    else |cs|
  }

  /** Every message of `seen` has a conversation. */
  ghost predicate Covers(cs: seq<Conversation>, seen: seq<Message>, me: string) {
    forall m :: m in seen ==> OtherParty(m, me) in Ids(cs)
  }

  /** Each conversation holds exactly its user's messages, is not empty, and counts its unread ones. */
  ghost predicate Filed(cs: seq<Conversation>, seen: seq<Message>, me: string) {
    forall k :: 0 <= k < |cs| ==>
      && cs[k].messages == With(seen, me, cs[k].userId)
      && cs[k].messages != []
      && cs[k].unreadCount == UnreadFor(cs[k].messages, me)
  }

  /** cs groups the messages of `seen` as the reduce does. */
  ghost predicate Grouped(cs: seq<Conversation>, seen: seq<Message>, me: string) {
    DistinctIds(cs) && Covers(cs, seen, me) && Filed(cs, seen, me) && Total(cs) == |seen|
  }

  /** The entry after m is pushed onto it. */
  function Pushed(c: Conversation, m: Message, me: string): Conversation {
    Conversation(c.userId, c.messages + [m], c.unreadCount + if UnreadByMe(m, me) then 1 else 0)
  }

  lemma FiledExisting(cs: seq<Conversation>, seen: seq<Message>, m: Message, me: string, j: nat)
    requires DistinctIds(cs) && Filed(cs, seen, me)
    requires j < |cs| && cs[j].userId == OtherParty(m, me)
    ensures Filed(cs[j := Pushed(cs[j], m, me)], seen + [m], me)
  {
    var r := cs[j := Pushed(cs[j], m, me)];
    forall k | 0 <= k < |r|
      ensures r[k].messages == With(seen + [m], me, r[k].userId)
      ensures r[k].messages != []
      ensures r[k].unreadCount == UnreadFor(r[k].messages, me)
    {
      WithSnoc(seen, m, me, r[k].userId);
      if k == j {
        UnreadSnoc(cs[j].messages, m, me);
      }
    }
  }

  lemma GroupedExisting(cs: seq<Conversation>, seen: seq<Message>, m: Message, me: string, j: nat)
    requires Grouped(cs, seen, me)
    requires j < |cs| && cs[j].userId == OtherParty(m, me)
    ensures Grouped(cs[j := Pushed(cs[j], m, me)], seen + [m], me)
  {
    var r := cs[j := Pushed(cs[j], m, me)];
    FiledExisting(cs, seen, m, me, j);
    TotalUpdate(cs, j, r[j]);
    assert Total(r) == |seen + [m]|;
    UpdateKeepsIds(cs, j, r[j]);
    assert OtherParty(m, me) in Ids(cs) by { assert Ids(cs)[j] == cs[j].userId; }
    CoversSnoc(r, seen, m, me);
  }

  /** Replacing an entry by one for the same user keeps the users. */
  lemma UpdateKeepsIds(cs: seq<Conversation>, j: nat, c: Conversation)
    requires j < |cs| && c.userId == cs[j].userId
    ensures Ids(cs[j := c]) == Ids(cs)
    ensures DistinctIds(cs) ==> DistinctIds(cs[j := c])
  {
    assert forall k :: 0 <= k < |cs| ==> cs[j := c][k].userId == cs[k].userId;
  }

  lemma CoversSnoc(cs: seq<Conversation>, seen: seq<Message>, m: Message, me: string)
    requires Covers(cs, seen, me) && OtherParty(m, me) in Ids(cs)
    ensures Covers(cs, seen + [m], me)
  {
    forall x | x in seen + [m] ensures OtherParty(x, me) in Ids(cs) {
      if x != m {
        assert x in seen;
      }
    }
  }

  lemma FiledNew(cs: seq<Conversation>, seen: seq<Message>, m: Message, me: string)
    requires Filed(cs, seen, me) && Covers(cs, seen, me)
    requires OtherParty(m, me) !in Ids(cs)
    ensures Filed(cs + [Pushed(Conversation(OtherParty(m, me), [], 0), m, me)], seen + [m], me)
  {
    var u := OtherParty(m, me);
    var r := cs + [Pushed(Conversation(u, [], 0), m, me)];
    WithNone(seen, me, u);
    forall k | 0 <= k < |r|
      ensures r[k].messages == With(seen + [m], me, r[k].userId)
      ensures r[k].messages != []
      ensures r[k].unreadCount == UnreadFor(r[k].messages, me)
    {
      WithSnoc(seen, m, me, r[k].userId);
      if k == |cs| {
        UnreadSnoc([], m, me);
      } else {
        assert Ids(cs)[k] == cs[k].userId;
      }
    }
  }

  lemma GroupedNew(cs: seq<Conversation>, seen: seq<Message>, m: Message, me: string)
    requires Grouped(cs, seen, me)
    requires OtherParty(m, me) !in Ids(cs)
    ensures Grouped(cs + [Pushed(Conversation(OtherParty(m, me), [], 0), m, me)], seen + [m], me)
  {
    var u := OtherParty(m, me);
    var c := Pushed(Conversation(u, [], 0), m, me);
    var r := cs + [c];
    FiledNew(cs, seen, m, me);
    TotalSnoc(cs, c);
    assert Ids(r) == Ids(cs) + [u];
    forall a, b | 0 <= a < b < |r| ensures r[a].userId != r[b].userId {
      if b == |cs| {
        assert Ids(cs)[a] == cs[a].userId;
      }
    }
  }

  /** One call of the reduce callback: open the entry for the other user if missing, then push m onto it. */
  function Filing(cs: seq<Conversation>, m: Message, me: string): seq<Conversation> {
    var u := OtherParty(m, me);
    var j := Find(cs, u);
    if j == |cs| then cs + [Pushed(Conversation(u, [], 0), m, me)] else cs[j := Pushed(cs[j], m, me)]
  }

  lemma FilingGrouped(cs: seq<Conversation>, seen: seq<Message>, m: Message, me: string)
    requires Grouped(cs, seen, me)
    ensures Grouped(Filing(cs, m, me), seen + [m], me)
  {
    var j := Find(cs, OtherParty(m, me));
    if j == |cs| {
      GroupedNew(cs, seen, m, me);
    } else {
      GroupedExisting(cs, seen, m, me, j);
    }
  }

  lemma Butlast(ms: seq<Message>)
    requires ms != []
    ensures ms[..|ms| - 1] + [ms[|ms| - 1]] == ms
  {
  }

  /** The reduce as a fold: the accumulator after the callback has run on every message of ms. */
  function Fold(ms: seq<Message>, me: string): seq<Conversation> {
    if ms == [] then [] else Filing(Fold(ms[..|ms| - 1], me), ms[|ms| - 1], me)
  }

  lemma {:induction false} FoldGrouped(ms: seq<Message>, me: string)
    ensures Grouped(Fold(ms, me), ms, me)
  {
    if ms != [] {
      var init := ms[..|ms| - 1];
      Butlast(ms);
      FoldGrouped(init, me);
      FilingGrouped(Fold(init, me), init, ms[|ms| - 1], me);
    }
  }

  /**
   * The `conversations` reduce. Each other user appears once; each conversation holds
   * exactly the messages filed under its user, in their list order, and counts those
   * addressed to me and unread; every message has a conversation, none is empty, and
   * the sizes add up to the number of messages.
   */
  method Group(ms: seq<Message>, me: string) returns (cs: seq<Conversation>)
    ensures DistinctIds(cs)
    ensures forall m :: m in ms ==> OtherParty(m, me) in Ids(cs)
    ensures forall k :: 0 <= k < |cs| ==> cs[k].messages == With(ms, me, cs[k].userId) && cs[k].messages != []
    ensures forall k :: 0 <= k < |cs| ==> cs[k].unreadCount == UnreadFor(cs[k].messages, me)
    ensures Total(cs) == |ms|
  {
    cs := [];
    var i := 0;
    while i < |ms|
      invariant 0 <= i <= |ms|
      invariant cs == Fold(ms[..i], me)
    {
      var m := ms[i];
      ghost var next := Filing(cs, m, me);
      assert Fold(ms[..i + 1], me) == next by {
        assert ms[..i + 1][..i] == ms[..i];
      }
      var u := OtherParty(m, me);
      var j := Find(cs, u);
      if j == |cs| {
        cs := cs + [Conversation(u, [], 0)];
      }
      cs := cs[j := Pushed(cs[j], m, me)];
      assert cs == next;
      i := i + 1;
    }
    assert ms[..i] == ms;
    FoldGrouped(ms, me);
    GroupedMeaning(cs, ms, me);
  }

  lemma GroupedMeaning(cs: seq<Conversation>, ms: seq<Message>, me: string)
    requires Grouped(cs, ms, me)
    ensures DistinctIds(cs)
    ensures forall m :: m in ms ==> OtherParty(m, me) in Ids(cs)
    ensures forall k :: 0 <= k < |cs| ==> cs[k].messages == With(ms, me, cs[k].userId) && cs[k].messages != []
    ensures forall k :: 0 <= k < |cs| ==> cs[k].unreadCount == UnreadFor(cs[k].messages, me)
    ensures Total(cs) == |ms|
  {
  }

  /** What `handleSend` passes to `onSendMessage`: the draft as typed and the selected receiver. */
  datatype SendRequest = SendRequest(content: string, receiverId: string)

  /** `handleSend`'s guard: nothing is sent without a selected receiver or with a blank draft. */
  function SendGuard(selected: Option<string>, draft: string): (r: Option<SendRequest>)
    ensures r.None? <==> !Truthy(selected) || IsBlank(draft)
    ensures r.Some? ==> r.value == SendRequest(draft, selected.value)
  {
    if !Truthy(selected) || IsBlank(draft) then None else Some(SendRequest(draft, selected.value))
  }

  class MessageListView {
    const me: string
    var messages: seq<Message>
    var draft: string
    var selected: Option<string>

    constructor(initial: seq<Message>, currentUser: string)
      ensures me == currentUser && messages == initial && draft == "" && selected == None
    {
      me, messages, draft, selected := currentUser, initial, "", None;
    }

    /** The socket's 'newMessage' handler: appends the message only if I sent or receive it. */
    method OnNewMessage(m: Message)
      modifies this`messages
      ensures messages == if Involves(m, me) then old(messages) + [m] else old(messages)
      ensures old(messages) <= messages
    {
      if m.senderId == me || m.receiverId == me {
        messages := messages + [m];
      }
    }

    method SelectConversation(u: string)
      modifies this`selected
      ensures selected == Some(u)
    {
      selected := Some(u);
    }

    method EditDraft(text: string)
      modifies this`draft
      ensures draft == text
    {
      draft := text;
    }

    /**
     * `handleSend`; `sent` is whether `onSendMessage` resolved. The draft is cleared only
     * after a request was made and it succeeded.
     */
    method HandleSend(sent: bool) returns (request: Option<SendRequest>)
      modifies this`draft
      ensures request == SendGuard(selected, old(draft))
      ensures draft == if request.Some? && sent then "" else old(draft)
    {
      request := SendGuard(selected, draft);
      if request.Some? && sent {
        draft := "";
      }
    }
  }
}
