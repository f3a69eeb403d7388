/**
 * The client notification store: socket events prepend notifications, the user marks
 * them read or clears them, and the unread count is derived from the list.
 */
module NotificationCenter {
  import opened Wrappers
  import opened Http
  import opened Text
  import opened MessageApi

  datatype Kind = MessageKind | ProgressKind | SystemKind

  /** The `progressUpdate` event; either field may be missing from the socket payload. */
  datatype ProgressEvent = ProgressEvent(completedCount: Option<int>, pathName: Option<string>)

  /** What a notification's `data` holds: the message or the progress event it came from. */
  datatype Payload = FromMessage(message: Message) | FromProgress(event: ProgressEvent)

  datatype Notification = Notification(
    id: string,
    kind: Kind,
    title: string,
    text: string,
    timestamp: int,
    read: bool,
    data: Payload)

  /** A browser notification shown through the Notification API. */
  datatype Alert = Alert(title: string, body: string, icon: string)

  /** How a template literal prints an optional number or string. */
  function ShowInt(v: Option<int>): string {
    match v
    case None => "undefined"
    case Some(n) => IntToString(n)
  }

  function ShowString(v: Option<string>): string {
    match v
    case None => "undefined"
    case Some(s) => s
  }

  /** The notification a `newMessage` event for me becomes. */
  function FromMessageEvent(m: Message, now: int): (n: Notification)
    ensures n.id == "msg-" + m.id && n.kind == MessageKind && !n.read
    ensures n.title == "New message from " + m.senderName && n.text == m.content && n.data == FromMessage(m)
  {
    Notification("msg-" + m.id, MessageKind, "New message from " + m.senderName, m.content, now, false, FromMessage(m))
  }

  /** The notification a `progressUpdate` event becomes; its id is built from `Date.now()`. */
  function FromProgressEvent(e: ProgressEvent, now: int): (n: Notification)
    ensures n.id == "progress-" + IntToString(now) && n.kind == ProgressKind && !n.read
    ensures n.title == "Progress Update" && n.data == FromProgress(e)
    ensures n.text == "You've completed " + ShowInt(e.completedCount) + " lessons in " + ShowString(e.pathName) + "!"
  {
    Notification("progress-" + IntToString(now), ProgressKind, "Progress Update",
      "You've completed " + ShowInt(e.completedCount) + " lessons in " + ShowString(e.pathName) + "!",
      now, false, FromProgress(e))
  }

  /** `markAsRead`: exactly the entries with that id become read; nothing moves. */
  function MarkRead(ns: seq<Notification>, id: string): (r: seq<Notification>)
    ensures |r| == |ns|
    ensures forall k :: 0 <= k < |ns| ==> r[k] == if ns[k].id == id then ns[k].(read := true) else ns[k]
  {
    if ns == [] then []
    else [if ns[0].id == id then ns[0].(read := true) else ns[0]] + MarkRead(ns[1..], id)
  }

  /** `markAllAsRead`: every entry becomes read; nothing moves. */
  function AllRead(ns: seq<Notification>): (r: seq<Notification>)
    ensures |r| == |ns|
    ensures forall k :: 0 <= k < |ns| ==> r[k] == ns[k].(read := true)
  {
    if ns == [] then [] else [ns[0].(read := true)] + AllRead(ns[1..])
  }

  /** `clearNotification`: the entries with another id, in their order. */
  function Cleared(ns: seq<Notification>, id: string): (r: seq<Notification>)
    ensures |r| <= |ns|
    ensures forall n :: n in r <==> n in ns && n.id != id
  {
    if ns == [] then []
    else if ns[0].id == id then Cleared(ns[1..], id)
    else [ns[0]] + Cleared(ns[1..], id)
  }

  /** `unreadCount`: the entries not yet read. */
  function UnreadCount(ns: seq<Notification>): (c: nat)
    ensures c <= |ns|
    ensures c == 0 <==> forall k :: 0 <= k < |ns| ==> ns[k].read
  {
    if ns == [] then 0 else (if ns[0].read then 0 else 1) + UnreadCount(ns[1..])
  }

  /** Clearing works entry by entry: on a concatenation it clears each part. */
  lemma {:induction false} ClearedConcat(a: seq<Notification>, b: seq<Notification>, id: string)
    ensures Cleared(a + b, id) == Cleared(a, id) + Cleared(b, id)
  {
    if a != [] {
      assert (a + b)[1..] == a[1..] + b;
      ClearedConcat(a[1..], b, id);
    } else {
      assert a + b == b;
    }
  }

  /** Clearing an id no entry has changes nothing. */
  lemma {:induction false} ClearedUnknown(ns: seq<Notification>, id: string)
    requires forall k :: 0 <= k < |ns| ==> ns[k].id != id
    ensures Cleared(ns, id) == ns
  {
    if ns != [] {
      ClearedUnknown(ns[1..], id);
    }
  }

  lemma {:induction false} UnreadConcat(a: seq<Notification>, b: seq<Notification>)
    ensures UnreadCount(a + b) == UnreadCount(a) + UnreadCount(b)
  {
    if a != [] {
      assert (a + b)[1..] == a[1..] + b;
      UnreadConcat(a[1..], b);
    } else {
      assert a + b == b;
    }
  }

  lemma MarkReadIdempotent(ns: seq<Notification>, id: string)
    ensures MarkRead(MarkRead(ns, id), id) == MarkRead(ns, id)
  {
  }

  /** Marking never turns an entry back to unread, and an unknown id is a no-op. */
  lemma MarkReadMonotone(ns: seq<Notification>, id: string)
    ensures forall k :: 0 <= k < |ns| && ns[k].read ==> MarkRead(ns, id)[k] == ns[k]
    ensures (forall k :: 0 <= k < |ns| ==> ns[k].id != id) ==> MarkRead(ns, id) == ns
  {
  }

  /** Marking one id lowers the unread count by the number of unread entries with that id. */
  lemma {:induction false} MarkReadUnread(ns: seq<Notification>, id: string)
    ensures UnreadCount(MarkRead(ns, id)) == UnreadCount(ns) - UnreadWith(ns, id)
  {
    if ns != [] {
      MarkReadUnread(ns[1..], id);
      assert MarkRead(ns, id)[1..] == MarkRead(ns[1..], id);
    }
  }

  /** The unread entries with the given id. */
  function UnreadWith(ns: seq<Notification>, id: string): (c: nat)
    ensures c <= UnreadCount(ns)
  {
    if ns == [] then 0 else (if !ns[0].read && ns[0].id == id then 1 else 0) + UnreadWith(ns[1..], id)
  }

  lemma AllReadNoneUnread(ns: seq<Notification>)
    ensures UnreadCount(AllRead(ns)) == 0
  {
  }

  /** Index k holds the first entry with the id. */
  predicate FirstWith(ns: seq<Notification>, id: string, k: int) {
    0 <= k < |ns| && ns[k].id == id && forall j :: 0 <= j < k ==> ns[j].id != id
  }

  /** `notifications.find((n) => n.id === id)`: the first entry with the id, if any. */
  function FindNotification(ns: seq<Notification>, id: string): (r: Option<Notification>)
    ensures r.Some? ==> r.value in ns && r.value.id == id
    ensures r.Some? ==> exists k :: FirstWith(ns, id, k) && ns[k] == r.value
    ensures r.None? <==> forall k :: 0 <= k < |ns| ==> ns[k].id != id
  {
    if ns == [] then None
    else if ns[0].id == id then
      assert FirstWith(ns, id, 0);
      Some(ns[0])
    else
      assert forall k :: 1 <= k < |ns| ==> ns[k] == ns[1..][k - 1];
      var rest := FindNotification(ns[1..], id);
      if rest.Some? then FirstShifted(ns, id, rest.value); rest else rest
  }

  /** The first entry with the id in the tail is the first in the whole list when the head has another id. */
  lemma FirstShifted(ns: seq<Notification>, id: string, n: Notification)
    requires ns != [] && ns[0].id != id
    requires exists k :: FirstWith(ns[1..], id, k) && ns[1..][k] == n
    ensures exists k :: FirstWith(ns, id, k) && ns[k] == n
  {
    var k :| FirstWith(ns[1..], id, k) && ns[1..][k] == n;
    forall j | 0 <= j < k + 1
      ensures ns[j].id != id
    {
      if j > 0 {
        assert ns[j] == ns[1..][j - 1];
      }
    }
    assert FirstWith(ns, id, k + 1);
  }

  /** Only one index is the first with an id. */
  lemma FirstWithUnique(ns: seq<Notification>, id: string, k: int, l: int)
    requires FirstWith(ns, id, k) && FirstWith(ns, id, l)
    ensures k == l
  {
  }

  /**
   * Where the bell's click handler navigates: a message notification opens the
   * conversation with the sender of its `data`, a progress one the dashboard, any other
   * kind or an unknown id nothing. Only the first entry with the id is looked at. A
   * message notification without a message in `data` prints the sender as "undefined".
   */
  function ClickTarget(ns: seq<Notification>, id: string): (r: Option<string>)
    ensures (forall k :: 0 <= k < |ns| ==> ns[k].id != id) ==> r == None
    ensures forall k :: FirstWith(ns, id, k) && ns[k].kind == MessageKind && ns[k].data.FromMessage? ==>
              r == Some("/messages?user=" + ns[k].data.message.senderId)
    ensures forall k :: FirstWith(ns, id, k) && ns[k].kind == ProgressKind ==> r == Some("/progress")
    ensures forall k :: FirstWith(ns, id, k) && ns[k].kind == SystemKind ==> r == None
  {
    match FindNotification(ns, id)
    case None => None
    case Some(n) =>
      if n.kind == MessageKind then
        Some("/messages?user=" + (match n.data case FromMessage(m) => m.senderId case FromProgress(_) => "undefined"))
      else if n.kind == ProgressKind then Some("/progress")
      else None
  }

  /** Clicking the notification just made from a message opens the conversation with its sender; one from a progress event opens the dashboard. */
  lemma ClickOpensSource(ns: seq<Notification>, m: Message, e: ProgressEvent, now: int)
    ensures ClickTarget([FromMessageEvent(m, now)] + ns, "msg-" + m.id) == Some("/messages?user=" + m.senderId)
    ensures ClickTarget([FromProgressEvent(e, now)] + ns, "progress-" + IntToString(now)) == Some("/progress")
  {
  }

  class NotificationStore {
    /** The signed-in user's id, if any. */
    const me: Option<string>
    /** The listeners exist only when the socket is up and the session has a user id. */
    const listening: bool
    /** Whether the page holds permission to show browser notifications. */
    const alertsGranted: bool
    /** `notifications`, newest first. */
    var notifications: seq<Notification>
    /** The browser notifications shown so far. */
    var alerts: seq<Alert>

    constructor(session: Option<string>, socket: bool, granted: bool)
      ensures me == session && listening == (socket && SignedIn(session)) && alertsGranted == granted
      ensures notifications == [] && alerts == []
    {
      me := session;
      listening := socket && SignedIn(session);
      alertsGranted := granted;
      notifications := [];
      alerts := [];
    }

    /** The `newMessage` listener's test: the message is addressed to the signed-in user. */
    predicate ForMe(m: Message) {
      listening && me.Some? && m.receiverId == me.value
    }

    function Unread(): (c: nat)
      reads this
      ensures c <= |notifications|
    {
      UnreadCount(notifications)
    }

    /** The `newMessage` listener: only a message addressed to me is prepended (and maybe shown). */
    method OnNewMessage(m: Message, now: int)
      modifies this
      ensures ForMe(m) ==>
                && notifications == [FromMessageEvent(m, now)] + old(notifications)
                && alerts == old(alerts) + (if alertsGranted then [Alert("New message from " + m.senderName, m.content, "/icon.png")] else [])
      ensures !(ForMe(m)) ==> notifications == old(notifications) && alerts == old(alerts)
    {
      if ForMe(m) {
        var n := FromMessageEvent(m, now);
        notifications := [n] + notifications;
        if alertsGranted {
          alerts := alerts + [Alert(n.title, n.text, "/icon.png")];
        }
      }
    }

    /** The `progressUpdate` listener: always one new unread entry at the front. */
    method OnProgressUpdate(e: ProgressEvent, now: int)
      modifies this
      ensures listening ==> notifications == [FromProgressEvent(e, now)] + old(notifications)
      ensures !listening ==> notifications == old(notifications)
      ensures alerts == old(alerts)
    {
      if listening {
        notifications := [FromProgressEvent(e, now)] + notifications;
      }
    }

    method MarkAsRead(id: string)
      modifies this
      ensures notifications == MarkRead(old(notifications), id) && alerts == old(alerts)
    {
      notifications := MarkRead(notifications, id);
    }

    method MarkAllAsRead()
      modifies this
      ensures notifications == AllRead(old(notifications)) && alerts == old(alerts)
      ensures Unread() == 0
    {
      notifications := AllRead(notifications);
      AllReadNoneUnread(old(notifications));
    }

    method ClearNotification(id: string)
      modifies this
      ensures notifications == Cleared(old(notifications), id) && alerts == old(alerts)
    {
      notifications := Cleared(notifications, id);
    }
  }
}
