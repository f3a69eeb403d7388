/**
 * The push-subscription store behind the subscribe and send routes. The database table
 * is a map keyed by (userId, endpoint); `webpush.sendNotification` and the store's
 * delete are not modelled, their outcome per endpoint is an input.
 */
module Push {
  import opened Wrappers
  import opened Http

  /** The table's compound key `userId_endpoint`. */
  datatype Key = Key(userId: string, endpoint: string)

  /** A stored subscription's keys. */
  datatype Record = Record(auth: string, p256dh: string)

  /** The subscribe body's `keys` object; either may be missing. */
  datatype BodyKeys = BodyKeys(auth: Option<string>, p256dh: Option<string>)

  /** The subscribe request body, as the browser's `PushSubscription.toJSON()` would send it. */
  datatype SubscribeBody = SubscribeBody(endpoint: Option<string>, keys: Option<BodyKeys>)

  /** One `sendNotification` call: the subscription it addresses and the payload it carries. */
  datatype Delivery = Delivery(endpoint: string, auth: string, p256dh: string, payload: string)

  /**
   * How one delivery attempt ends: delivered, or rejected with the push service's status
   * code; `deleteThrows` says whether deleting a gone (410) subscription then fails.
   */
  datatype Attempt = Delivered | Rejected(statusCode: int, deleteThrows: bool)

  /** The push service answered 410 Gone (section 15.5.11 of RFC 9110). */
  predicate Gone(a: Attempt) {
    a.Rejected? && a.statusCode == 410
  }

  /** The subscription is removed: it is gone and the delete went through. */
  predicate Removes(a: Attempt) {
    Gone(a) && !a.deleteThrows
  }

  /** The attempt makes `Promise.all` reject: it is gone and the delete threw. */
  predicate Throws(a: Attempt) {
    Gone(a) && a.deleteThrows
  }

  /** A body the upsert accepts: an endpoint and both keys. */
  predicate Complete(b: SubscribeBody) {
    b.endpoint.Some? && b.keys.Some? && b.keys.value.auth.Some? && b.keys.value.p256dh.Some?
  }

  /** The upsert: afterwards exactly one row for (user, endpoint), holding these keys. */
  function Upsert(rows: map<Key, Record>, user: string, endpoint: string, rec: Record): (r: map<Key, Record>)
    ensures Key(user, endpoint) in r && r[Key(user, endpoint)] == rec
    ensures forall k :: k != Key(user, endpoint) ==> (k in r <==> k in rows) && (k in rows ==> r[k] == rows[k])
  {
    rows[Key(user, endpoint) := rec]
  }

  /** Repeating the same upsert changes nothing more. */
  lemma UpsertIdempotent(rows: map<Key, Record>, user: string, endpoint: string, rec: Record)
    ensures Upsert(Upsert(rows, user, endpoint, rec), user, endpoint, rec) == Upsert(rows, user, endpoint, rec)
  {
  }

  /** The latest call wins, whether the row was there before or not. */
  lemma UpsertOverwrites(rows: map<Key, Record>, user: string, endpoint: string, first: Record, second: Record)
    ensures Upsert(Upsert(rows, user, endpoint, first), user, endpoint, second) == Upsert(rows, user, endpoint, second)
  {
  }

  /**
   * The `findMany({ where: { userId } })` filter: the rows of the body's user, or every
   * row when the body has no `userId` (an undefined filter field is dropped).
   */
  predicate Selects(user: Option<string>, k: Key) {
    user.None? || k.userId == user.value
  }

  /** The subscriptions the send route looks up. */
  function Targets(rows: map<Key, Record>, user: Option<string>): (ks: set<Key>)
    ensures forall k :: k in ks <==> k in rows && Selects(user, k)
  {
    set k | k in rows && Selects(user, k)
  }

  /** Without a `userId` in the body the lookup returns the whole table. */
  lemma TargetsWithoutUser(rows: map<Key, Record>)
    ensures Targets(rows, None) == rows.Keys
  {
  }

  /** The one delivery addressed to a looked-up subscription. */
  function DeliveryTo(rows: map<Key, Record>, k: Key, payload: string): Delivery
    requires k in rows
  {
    Delivery(k.endpoint, rows[k].auth, rows[k].p256dh, payload)
  }

  /**
   * The delete after a 410 succeeds: the store can delete it and the compound key is
   * complete, which it is not when the body has no `userId`.
   */
  predicate Deletes(user: Option<string>, a: Attempt) {
    Removes(a) && user.Some?
  }

  /** The delete after a 410 throws, which makes `Promise.all` reject. */
  predicate Fails(user: Option<string>, a: Attempt) {
    Gone(a) && (a.deleteThrows || user.None?)
  }

  /** The store after the send: the looked-up subscriptions whose delete went through are removed. */
  ghost predicate Pruned(before: map<Key, Record>, after: map<Key, Record>, user: Option<string>, outcome: string -> Attempt) {
    && (forall k :: k in after <==> k in before && !(Selects(user, k) && Deletes(user, outcome(k.endpoint))))
    && (forall k :: k in after ==> after[k] == before[k])
  }

  /** Pruning only looks at the user's rows: every other user's subscriptions survive as they were. */
  lemma PrunedSparesOthers(before: map<Key, Record>, after: map<Key, Record>, user: Option<string>, outcome: string -> Attempt, k: Key)
    requires Pruned(before, after, user, outcome)
    requires user.Some? && k.userId != user.value && k in before
    ensures k in after && after[k] == before[k]
  {
  }

  /** A user with no subscriptions, or whose pushes all succeed or fail otherwise than with a deleted 410, leaves the store unchanged. */
  lemma PrunedNothingGone(before: map<Key, Record>, after: map<Key, Record>, user: Option<string>, outcome: string -> Attempt)
    requires Pruned(before, after, user, outcome)
    requires forall k :: k in Targets(before, user) ==> !Deletes(user, outcome(k.endpoint))
    ensures after == before
  {
  }

  /** Without a `userId` no delete can succeed, so nothing is removed, and any 410 makes the send fail. */
  lemma NoUserRemovesNothing(before: map<Key, Record>, after: map<Key, Record>, outcome: string -> Attempt)
    requires Pruned(before, after, None, outcome)
    ensures after == before
    ensures forall k :: k in Targets(before, None) ==> (Fails(None, outcome(k.endpoint)) <==> Gone(outcome(k.endpoint)))
  {
    PrunedNothingGone(before, after, None, outcome);
  }

  /** The deliveries so far: keys[i] is the looked-up subscription sent[i] went to, and every key in done has had its delivery. */
  ghost predicate DeliveredTo(before: map<Key, Record>, done: set<Key>, keys: seq<Key>, sent: seq<Delivery>, payload: string) {
    && done <= before.Keys
    && |keys| == |sent|
    && (forall i :: 0 <= i < |sent| ==> keys[i] in done && sent[i] == DeliveryTo(before, keys[i], payload))
    && (forall k :: k in done ==> k in keys)
  }

  /** One more push keeps the bookkeeping. */
  lemma DeliveredStep(before: map<Key, Record>, done: set<Key>, keys: seq<Key>, sent: seq<Delivery>, payload: string, k: Key)
    requires DeliveredTo(before, done, keys, sent, payload) && k in before
    ensures DeliveredTo(before, done + {k}, keys + [k], sent + [DeliveryTo(before, k, payload)], payload)
  {
    var keys', sent' := keys + [k], sent + [DeliveryTo(before, k, payload)];
    forall i | 0 <= i < |sent'|
      ensures keys'[i] in done + {k} && sent'[i] == DeliveryTo(before, keys'[i], payload)
    {
      if i < |sent| {
        assert keys'[i] == keys[i] && sent'[i] == sent[i];
      }
    }
  }

  /** Every key in done got its delivery, and nothing else was delivered. */
  lemma DeliveredExactly(before: map<Key, Record>, done: set<Key>, keys: seq<Key>, sent: seq<Delivery>, payload: string)
    requires DeliveredTo(before, done, keys, sent, payload)
    ensures forall k :: k in done ==> DeliveryTo(before, k, payload) in sent
    ensures forall d :: d in sent ==> exists k :: k in done && d == DeliveryTo(before, k, payload)
  {
    forall k | k in done
      ensures DeliveryTo(before, k, payload) in sent
    {
      var i :| 0 <= i < |keys| && keys[i] == k;
      assert sent[i] == DeliveryTo(before, k, payload);
    }
    forall d | d in sent
      ensures exists k :: k in done && d == DeliveryTo(before, k, payload)
    {
      var i :| 0 <= i < |sent| && sent[i] == d;
      assert keys[i] in done;
    }
  }

  /** The store part-way through the send: of the subscriptions in done, those whose delete went through are gone. */
  ghost predicate PrunedSoFar(before: map<Key, Record>, after: map<Key, Record>, done: set<Key>, user: Option<string>, outcome: string -> Attempt) {
    && (forall k :: k in after <==> k in before && !(k in done && Deletes(user, outcome(k.endpoint))))
    && (forall k :: k in after ==> after[k] == before[k])
  }

  /** Handling one more subscription: its row goes exactly when its delete goes through. */
  lemma PrunedStep(before: map<Key, Record>, after: map<Key, Record>, done: set<Key>, user: Option<string>, outcome: string -> Attempt, k: Key)
    requires PrunedSoFar(before, after, done, user, outcome) && k in before && k !in done
    ensures PrunedSoFar(before, if Deletes(user, outcome(k.endpoint)) then after - {k} else after, done + {k}, user, outcome)
  {
  }

  /** Once every looked-up subscription is handled the store is pruned. */
  lemma PrunedAll(before: map<Key, Record>, after: map<Key, Record>, user: Option<string>, outcome: string -> Attempt)
    requires PrunedSoFar(before, after, Targets(before, user), user, outcome)
    ensures Pruned(before, after, user, outcome)
  {
  }

  datatype SendResult = SendResult(status: Status, deliveries: seq<Delivery>)

  class SubscriptionStore {
    var rows: map<Key, Record>

    constructor(initial: map<Key, Record>)
      ensures rows == initial
    {
      rows := initial;
    }

    /**
     * The subscribe route: 401 without a session; the owner is the session user and never
     * anything in the body; a body the upsert cannot use fails with 500 and writes nothing.
     */
    method Subscribe(session: Option<string>, body: SubscribeBody) returns (status: Status)
      modifies this
      ensures !SignedIn(session) ==> status == Unauthorized && rows == old(rows)
      ensures SignedIn(session) && !Complete(body) ==> status == InternalError && rows == old(rows)
      ensures SignedIn(session) && Complete(body) ==>
                && status == Ok
                && rows == Upsert(old(rows), session.value, body.endpoint.value,
                                  Record(body.keys.value.auth.value, body.keys.value.p256dh.value))
    {
      if !SignedIn(session) {
        return Unauthorized;
      }
      if !Complete(body) {
        return InternalError;
      }
      var keys := body.keys.value;
      rows := Upsert(rows, session.value, body.endpoint.value, Record(keys.auth.value, keys.p256dh.value));
      return Ok;
    }

    /**
     * The send route. Every looked-up subscription gets exactly one delivery of the same
     * payload with its own endpoint and keys; a 410 answer deletes that subscription
     * (keyed by the body's user and the endpoint), any other failure is only logged; the
     * route answers 500 iff some delete threw, and 401 without a session, before any lookup.
     */
    method Send(session: Option<string>, user: Option<string>, payload: string, outcome: string -> Attempt)
      returns (status: Status, sent: seq<Delivery>)
      modifies this
      ensures !SignedIn(session) ==> status == Unauthorized && sent == [] && rows == old(rows)
      ensures SignedIn(session) ==>
                && (status == InternalError <==> exists k :: k in Targets(old(rows), user) && Fails(user, outcome(k.endpoint)))
                && (status != InternalError ==> status == Ok)
                && |sent| == |Targets(old(rows), user)|
                && (forall k :: k in Targets(old(rows), user) ==> DeliveryTo(old(rows), k, payload) in sent)
                && (forall d :: d in sent ==> exists k :: k in Targets(old(rows), user) && d == DeliveryTo(old(rows), k, payload))
                && Pruned(old(rows), rows, user, outcome)
    {
      if !SignedIn(session) {
        return Unauthorized, [];
      }
      ghost var before := rows;
      var targets := Targets(rows, user);
      var todo := targets;
      var threw := false;
      sent := [];
      ghost var done: set<Key> := {};
      ghost var keys: seq<Key> := [];
      while todo != {}
        invariant todo <= targets == Targets(before, user)
        invariant forall k :: k in done <==> k in targets && k !in todo
        invariant |sent| + |todo| == |targets|
        invariant DeliveredTo(before, done, keys, sent, payload)
        invariant threw <==> exists k :: k in done && Fails(user, outcome(k.endpoint))
        invariant PrunedSoFar(before, rows, done, user, outcome)
        decreases |todo|
      {
        var k :| k in todo;
        var rec := rows[k];
        DeliveredStep(before, done, keys, sent, payload, k);
        PrunedStep(before, rows, done, user, outcome, k);
        sent := sent + [Delivery(k.endpoint, rec.auth, rec.p256dh, payload)];
        keys := keys + [k];
        var a := outcome(k.endpoint);
        if Gone(a) {
          if a.deleteThrows || user.None? {
            threw := true;
          } else {
            rows := rows - {k};
          }
        }
        todo := todo - {k};
        done := done + {k};
      }
      DeliveredExactly(before, done, keys, sent, payload);
      PrunedAll(before, rows, user, outcome);
      status := if threw then InternalError else Ok;
    }
  }
}
